# tick-tick in Dafny

A verified model of the core of tick-tick, a browser task manager written in JavaScript. The model covers:

- **Data and sanitisers.** The task and project records and the sanitisers that build and update them: titles, durations, priorities, tags, subtasks and colours.
- **The store.** The single application state and every task, project and settings action, each written as a pure producer plus the method that commits it. Also the subscriber registry, whose broadcast survives a throwing subscriber.
- **Persistence.** Normalising a loaded document, the demo data of a fresh install, and the debounced save.
- **The hash router.** The parser and the hash builder, and the round trip between them.
- **Reminders.** The reminder manager, which keeps one timer per task with a pending reminder.
- **The calendar.** Its arithmetic: quarter-hour snapping, the two resize handles, the 6×7 month grid, week starts, the hover and click minutes, and navigation.
- **The list views.** Today, upcoming, project, tag, search and done, with their filters and sorts.
- **The sidebar.** Its tag counts and project list.
- **The tag picker.** Its comma-separated tag field.
- **The cloud merge.** The merge of a Drive backup into the local state, and the restore gating of the application object.
- **The Drive sync manager.** base64url, JWT payloads, the backup file name, token validity, status listeners and the single-slot push buffer.
- **Configuration.** The `.env` parser behind the sync configuration.

**How the pieces are modelled.**

- **One module per source file.** Each JavaScript file becomes a Dafny module of the same role. `store.dfy` models `src/state/store.js`, `calendar.dfy` models `src/views/calendar.js`, and so on.
- **Shared modules.** `Wrappers`, `Text`, `JsValues` and `Seqs`/`Groups` hold what the files share:
  - `Option` and `Result` stand for `null` and a thrown error;
  - JavaScript string helpers;
  - untyped JavaScript values and their coercions;
  - `filter` and the stable `sort`.
- **Purity decides the form.** Pure code is written as functions and lemmas. Code that mutates objects or module variables is written as classes with `modifies` clauses:
  - the store;
  - the save scheduler;
  - the router;
  - the reminder manager;
  - the calendar's resize drag and navigation;
  - the tag picker;
  - the sync manager;
  - the application object.
- **Loops stay loops.** The source's loops are methods proved against the functions that specify them:
  - the merge map;
  - the tag counts;
  - date grouping;
  - the reminder reconciliation;
  - the demo data;
  - the `.env` lines.
- **Host services are parameters.** The host's clock, `createId`, the time zone offset and timers all come in as parameters:
  - a `Clock` value holds the date parser and formatters, and the offset;
  - timers are numbered handles.
- **Bugs are kept as written.** Where the source does something its authors evidently did not intend, the operations model the code as written. The corrected rule sits beside them with its property proved, and "## Findings" names both.

## Model

| member | source | states |
|---|---|---|
| ProjectModel.SanitizeName | src/models/project.js:5-11 | succeeds exactly for a string with something left after trimming; the name is non-empty, at most 120 characters and no longer than the trimmed input |
| ProjectModel.SanitizeColor | src/models/project.js:13-17 | a colour survives exactly when the trimmed string is `#` and six hex digits; it comes back upper-cased and equal to the input up to letter case |
| ProjectModel.SanitizeColorIdempotent | src/models/project.js:13-17 | sanitising an already sanitised colour gives it back |
| ProjectModel.CreateProject | src/models/project.js:23-33 | creation fails exactly when the name sanitises to nothing; both stamps are the creation time, the order is finite, a falsy id gets the fresh id and a non-string colour is null |
| ProjectModel.UpdateProject | src/models/project.js:35-44 | a missing project, or a truthy name that sanitises to nothing, is an error; otherwise id and creation stamp are kept and the stamp is now; a truthy name becomes its sanitised form, a defined colour its sanitised colour and a defined order its sanitised order, and each field without its update keeps its value |
| TaskModel.NormalizeDuration | src/models/task.js:15-21 | the duration is always between 5 and 1440 minutes; a non-finite or non-positive value gives 60, anything else is clamped into range |
| TaskModel.ClampPriority | src/models/task.js:23-29 | the priority is always 1, 2 or 3; it is the input when that is one of them and normal (2) otherwise |
| TaskModel.NormalizeDate | src/models/task.js:31-36 | a falsy or unparsable value is null; a parsable one becomes the ISO text of the instant it denotes |
| TaskModel.CleanTags | src/models/task.js:41-43 | every kept tag is non-empty and at most 30 characters; which tags are kept is stated by `TaskModel.CleanTagsMembers` |
| TaskModel.CleanTagsMembers | src/models/task.js:41-43 | the kept tags are exactly the non-empty cleaned forms of the input items |
| TaskModel.DedupCaseless | src/models/task.js:40-49 | the kept tags are unique ignoring case, come from the input and were not already seen |
| TaskModel.DedupKeepsFirst | src/models/task.js:44-49 | each kept tag is the first input tag of its lower-case form |
| TaskModel.DedupCovers | src/models/task.js:44-49 | every input tag whose lower-case form was not seen is represented in the result |
| TaskModel.NormalizeTags | src/models/task.js:38-50 | a non-array gives no tags; the tags are non-empty, at most 30 characters, unique ignoring case, each a cleaned input tag, and every cleaned input tag is represented by its first occurrence |
| TaskModel.FirstCaselessMatches | src/models/task.js:44-49 | the first tag found for a lower-case form has that lower-case form |
| TaskModel.CleanSubtask | src/models/task.js:55-59 | a cleaned subtask's title is at most 200 characters, and `done` is the truthiness of the input's `done` |
| TaskModel.CleanSubtaskSpec | src/models/task.js:55-59 | the title is the input title trimmed, kept whole up to 200 characters and otherwise cut to its first 200 (`''` when it is not a string); a non-empty string id is kept and a falsy one is replaced by the fresh id |
| TaskModel.CleanSubtasks | src/models/task.js:54-60 | every kept subtask has an id and a non-empty title of at most 200 characters |
| TaskModel.CleanSubtasksSound | src/models/task.js:54-60 | every kept subtask is the cleaned form of one of the input items |
| TaskModel.CleanSubtasksComplete | src/models/task.js:54-60 | every input item whose cleaned title is non-empty is kept |
| TaskModel.NormalizeSubtasks | src/models/task.js:52-61 | a non-array gives no subtasks; the result holds exactly the cleaned items with a non-empty title, each valid |
| TaskModel.CleanNormalSubtask | src/models/task.js:55-59 | cleaning the plain object of a subtask already in normal form gives the subtask back |
| TaskModel.SubtasksToJs | src/models/task.js:52-61 | the plain objects handed back to normalisation are one per subtask, in order |
| TaskModel.NormalizeSubtasksFixpoint | src/models/task.js:52-61 | normalising subtasks already in normal form gives them back unchanged |
| TaskModel.SanitizeTitle | src/models/task.js:65-71 | succeeds exactly for a string with something left after trimming; the title is a non-empty prefix of the trimmed text of at most 200 characters, the whole of it when that fits |
| TaskModel.SanitizeDescription | src/models/task.js:73-76 | a non-string gives the empty text; a string is cut to a prefix of at most 10000 characters, kept whole when it fits |
| TaskModel.SanitizeOrder | src/models/task.js:78-80 | the order is always finite: a finite number is kept, anything else becomes the current time |
| TaskModel.CreateTask | src/models/task.js:82-102 | creation fails exactly when the title sanitises to nothing; otherwise the task is valid, stamped now, and missing id, createdAt, projectId, duration, priority and doneAt take their defaults |
| TaskModel.NewTaskDefaults | src/models/task.js:84-100 | fields missing from the input take their default values in the built task |
| TaskModel.CreatedAt | src/models/task.js:96 | the creation stamp is now unless a truthy createdAt normalises to a non-empty date, which is then used |
| TaskModel.NewTask | src/models/task.js:84-100 | the built task is valid, carries the sanitised title and is stamped now |
| TaskModel.UpdateTask | src/models/task.js:104-123 | a missing task, or a truthy title that sanitises to nothing, is an error; otherwise id and createdAt are kept and the stamp is now; a truthy title becomes its sanitised form, truthy tags and subtasks their normal forms, and every other defined field its sanitised value (description, project id, the three dates, the all-day flag, priority, order and duration, `AppliesSet`); every field whose update is absent keeps its value |
| TaskModel.UpdatedTags | src/models/task.js:111 | a falsy tags update keeps the tags; a truthy one replaces them with their normal form |
| TaskModel.UpdatedSubtasks | src/models/task.js:116 | a falsy subtasks update keeps the subtasks; a truthy one replaces them with their normal form |
| TaskModel.UpdatedDate | src/models/task.js:112-117 | an undefined date update keeps the field; any other value is normalised |
| TaskModel.ApplyUpdates | src/models/task.js:106-121 | the spread keeps id and createdAt, stamps now and takes the given title |
| TaskModel.ApplyUpdatesKeeps | src/models/task.js:106-121 | with no title update, every field whose update is absent keeps its value |
| TaskModel.ApplyUpdatesSets | src/models/task.js:108-120 | every field whose update is given takes its sanitised or normalised value |
| TaskModel.UpdateTaskPreservesValid | src/models/task.js:104-123 | updating a valid task gives a valid task |
| TaskModel.EmptyUpdateOnlyRestamps | src/models/task.js:104-123 | an empty or missing update changes nothing but the updatedAt stamp |
| TaskModel.SubtasksOnlyUpdate | src/models/task.js:116 | an update holding only subtasks replaces them with their normal form and re-stamps, leaving everything else |
| TaskModel.CleanTag | src/models/task.js:42 | a string becomes its trimmed text, kept whole up to 30 characters and otherwise cut to its first 30; anything else becomes `''` |
| TaskModel.SubtasksOnlyApply | src/models/task.js:104-123 | an update naming only `subtasks` replaces the subtasks by their normal form and re-stamps `updatedAt`, leaving every other field |
| Dates.StartOfDay | src/utils/dates.js:9-13 | local midnight lies on the same local day as the instant and at most one day before it |
| Dates.MinuteOfDay | src/views/calendar.js:283 | the minutes since local midnight are between 0 and 1439 |
| Dates.DayPlusMinutes | src/views/calendar.js:318-320 | local midnight plus a minute count below 1440 stays on that day, that many minutes into it |
| Dates.WeekStart | src/views/calendar.js:55-60 | the week start is a Monday at most six days before the day |
| Dates.WeekStartOfWeek | src/views/calendar.js:55-60 | every day of a week has the same week start |
| Dates.ParseDate | src/utils/dates.js:3-7 | a missing or empty value gives null; any other value is parsed |
| Dates.IsSameDaySymmetric | src/utils/dates.js:19-26 | same-day is symmetric and false when either date is missing |
| Dates.IsWithinNextDays | src/utils/dates.js:34-40 | true exactly for a parsable date whose local day is between today and `days` days ahead, both ends included |
| Dates.IsBetweenDatesInclusive | src/utils/dates.js:66-70 | both ends of the range are inside it and an unparsable value never is |
| Dates.GetDateKey | src/utils/dates.js:48-52 | an unparsable date has no key; a parsable one is keyed by its UTC day |
| Dates.GetLocalDateKey | src/views/calendar.js:138-140 | an unparsable date has no key; a parsable one is keyed by its local day |
| Dates.GroupByDate | src/utils/dates.js:54-64 | the groups' keys are distinct and listed in order of first appearance, every item is in the group of its UTC key, and each group holds exactly the items with that key in input order |
| Dates.GroupByLocalDate | src/utils/dates.js:54-64 | the same grouping keyed by the local day: distinct keys in order of first appearance, each group exactly the items with that key in input order |
| Dates.UtcKeyMissesLocalDay | src/utils/dates.js:48-52 | three hours east of UTC, a task due at 00:30 local time is filed under the previous day's key |
| Dates.LocalKeyMatchesLocalDay | src/views/calendar.js:138-140 | with the local key, an item's group is exactly its local due day |
| ViewHelpers.DueMoment | src/views/helpers.js:30-31 | a task's sort moment is its parsed due instant, or never when the due date does not parse |
| ViewHelpers.EarlierTotal | src/views/helpers.js:30-32 | of two different moments exactly one is earlier |
| ViewHelpers.PriorityTimePreorder | src/views/helpers.js:28-34 | the priority-then-time-then-title comparator is a total preorder |
| ViewHelpers.SortByPriorityAndTime | src/views/helpers.js:25-35 | the sorted copy is a permutation of the input |
| ViewHelpers.SortByPriorityAndTimeSpec | src/views/helpers.js:25-35 | higher priority comes first; within a priority dated tasks come before undated ones, earliest first; equal moments are ordered by title |
| ViewHelpers.ManualPreorder | src/views/helpers.js:38-45 | the manual-order comparator is a total preorder |
| ViewHelpers.SortByManualOrder | src/views/helpers.js:37-46 | the sorted copy is a permutation of the input |
| ViewHelpers.SortByManualOrderSpec | src/views/helpers.js:37-46 | tasks are ordered by order, a non-finite order counting as the largest safe integer, and equal orders by creation stamp |
| ViewHelpers.BeforeStartOfDay | src/views/helpers.js:52 | an instant before the start of today lies on an earlier local day, and conversely |
| ViewHelpers.IsTaskOverdue | src/views/helpers.js:48-53 | overdue exactly when the task is open, its due date parses and falls on an earlier local day than now |
| ViewHelpers.IsTaskDueToday | src/views/helpers.js:55-60 | due today exactly when the task is open and its due date parses to today's local day |
| ViewHelpers.OverdueTodayDisjoint | src/views/helpers.js:48-60 | no task is both overdue and due today; a done or undated task is neither |
| Calendar.SnapToQuarter | src/views/calendar.js:269-271 | the snapped value is a multiple of 15 at most 7 minutes from the input |
| Calendar.SnapIsNearest | src/views/calendar.js:269-271 | every other multiple of 15 is strictly farther from the input than the snapped value |
| Calendar.SnapQuarterFixed | src/views/calendar.js:269-271 | a multiple of 15 snaps to itself |
| Calendar.ClampMinutes | src/views/calendar.js:290 | the value is clamped into 0..1425, kept when already inside, 0 below and 1425 above |
| Calendar.BottomDuration | src/views/calendar.js:294-298 | the bottom handle's duration ends by midnight, is at least 15 when the start leaves room, and equals the snapped pointer duration whenever that lies within the bounds |
| Calendar.TopDragAsWritten | src/views/calendar.js:290-304 | the top handle as written keeps the block's end, caps the start at 15 minutes before the end and at 1425, and keeps a duration of at least 15 |
| Calendar.TopDragLeavesDay | src/views/calendar.js:284-304 | a block at midnight with a 5-minute duration gets a start of -10 from any top drag, even an empty one |
| Calendar.TopDragLeavesDayCommit | src/views/calendar.js:316-321 | committing that start moves the task to the previous day |
| Calendar.TopDrag | src/views/calendar.js:290-304 | the corrected top handle keeps the start within 0..1425 and the duration at least 15, never ends before the original end, and is the written rule whenever the block ends at minute 15 or later |
| Calendar.TopDragFollowsPointer | src/views/calendar.js:300-303 | between its bounds the top handle's start is exactly the snapped pointer position |
| Calendar.CommitDueOnDay | src/views/calendar.js:317-321 | a committed start within the day keeps the task on its day, at that minute |
| Calendar.CommitDueBeforeDay | src/views/calendar.js:317-321 | a negative committed start lands on an earlier local day than the block's |
| Calendar.Resize.constructor | src/views/calendar.js:277-288 | the drag's anchor is the due date's minute of day, the finite duration or 60, and the end cut at midnight; the preview starts at the anchor |
| Calendar.Resize.Move | src/views/calendar.js:292-308 | the preview follows the pointer from the anchor: the bottom handle changes only the duration; the top handle follows the rule as written, which is the corrected rule whenever the block ends at minute 15 or later |
| Calendar.Resize.PointerUp | src/views/calendar.js:310-324 | the update always carries the preview duration; only a top drag sets dueAt, to the preview start counted from the block's local midnight: on the task's own day at that minute when the start is 0 or later, on an earlier day when it is negative |
| Calendar.StartResizing | src/views/calendar.js:277-279 | a drag starts exactly when the task's due date parses |
| Calendar.GridDates | src/views/calendar.js:142-153 | the month grid has 42 cells |
| Calendar.LeadingDays | src/views/calendar.js:144 | the first row holds 0 to 6 days of the previous month |
| Calendar.GridShape | src/views/calendar.js:142-153 | the 1st of the month sits after the leading days, every row starts on a Monday, and a whole month of up to 31 days fits |
| Calendar.BuildGridDates | src/views/calendar.js:142-153 | the loop builds exactly the 42 grid days |
| Calendar.WeekDays | src/views/calendar.js:227-228 | the week view shows seven consecutive days from the Monday of the selected date's week |
| Calendar.WeekDaysContainSelected | src/views/calendar.js:227-228 | the selected date is one of the week's columns and every column has the same week start |
| Calendar.DayTasks | src/views/calendar.js:192-193 | the cell looks itself up by its local date among the groups `groupByDate` builds by UTC date (line 514), so a day shows exactly the tasks whose UTC due date is that day, in state order |
| Calendar.DayTasksLocal | src/views/calendar.js:192-193 | the corrected lookup: grouped by local date, a day shows exactly the tasks due on that local day, in state order |
| Calendar.MonthCell | src/views/calendar.js:200-210 | a month cell shows the first three tasks at most and a `+n` label exactly when there are more, n being the rest |
| Calendar.HoverQuarterStart | src/views/calendar.js:356-368 | the highlight starts at the quarter containing the clamped pointer position, within 0..1425 |
| Calendar.ClickMinute | src/views/calendar.js:383-385 | the clicked minute is the position clamped into 0..1439 |
| Calendar.ClickPayload | src/views/calendar.js:377-399 | a task is created exactly when the column has a height and a create handler exists; it is due at the clicked minute of the day with the default duration |
| Calendar.ClickOnDay | src/views/calendar.js:386-392 | the created task falls on the clicked day at the clicked minute |
| Calendar.Shifted | src/views/calendar.js:528-557 | in the month view a shift moves only the visible month; in the week view it moves the selected date by a week and the visible month follows it |
| Calendar.ShiftBack | src/views/calendar.js:528-557 | previous then next, or next then previous, returns to the same view |
| Calendar.Navigator.constructor | src/views/calendar.js:21-24 | the calendar opens on the week view, today selected, showing today's month |
| Calendar.Navigator.Prev | src/views/calendar.js:528-538 | the back button shifts the view one period back and keeps it consistent |
| Calendar.Navigator.Next | src/views/calendar.js:547-557 | the forward button shifts the view one period ahead and keeps it consistent |
| Calendar.Navigator.SelectDate | src/views/calendar.js:562-569 | selecting a day (or today) selects it and shows its month, keeping the mode |
| Calendar.Navigator.SetMode | src/views/calendar.js:585-598 | choosing the current mode changes nothing; switching to the week view shows the selected date's month, switching to the month view keeps the visible month |
| UpcomingView.RangeMissesSeventhDay | src/views/upcoming.js:25-31 | a task due at 09:00 six days from today is in the seven days the heading names, yet the range as written leaves it out |
| UpcomingView.RangeWithinSevenDays | src/views/upcoming.js:25-31 | everything the written range lets in is in the seven days, and the only tasks of the seven days it leaves out fall on the seventh |
| UpcomingView.ListedWithinCorrected | src/views/upcoming.js:29-31 | every task the view lists is one the corrected seven-day filter lists, and the corrected filter adds only tasks due later on the seventh day |
| UpcomingView.DateKeyOf | src/views/upcoming.js:60 | a group key is at most ten characters, the date part of the stored text |
| UpcomingView.GroupDates | src/views/upcoming.js:68 | the section dates are the group dates, one per group, in order |
| UpcomingView.KeyLePreorder | src/views/upcoming.js:67 | the key comparator is a total preorder and agrees with string order |
| UpcomingView.SortedKeysAscending | src/views/upcoming.js:66-67 | sorting distinct keys gives them in strictly ascending order and loses none |
| UpcomingView.Assemble | src/views/upcoming.js:66-68 | the groups come out in the sorted key order, each with the tasks collected under its key |
| UpcomingView.GroupTasksByDate | src/views/upcoming.js:57-69 | one non-empty group per distinct date key in strictly ascending key order, each holding exactly the tasks with that key in input order, and every task is in a group |
| UpcomingView.SectionsOf | src/views/upcoming.js:34-45 | with no group there is one empty section with the empty message; otherwise one section per group, titled by its date and holding its group's tasks sorted by priority and time (`SortByPriorityAndTime`) |
| UpcomingView.Sections | src/views/upcoming.js:25-45 | the sections are `SectionsOf` the date groups; each group holds exactly the listed tasks of its date (open dated tasks inside the range as written, from today's midnight to the midnight six days later), every listed task's date has a group, and groups come in ascending date order |
| UpcomingView.ListedGroups | src/views/upcoming.js:29-33 | each date group holds exactly the listed tasks with its date key, in input order; every listed task's date has a group; groups come in ascending date order |
| UpcomingView.GroupedListed | src/views/upcoming.js:29-33 | groups built from the tasks the written range lets in hold only such tasks, and every such task has its group |
| TodayView.TodayLists | src/views/today.js:25-27 | the overdue list holds exactly the overdue tasks and the today list exactly those due today; no task is in both and none is done |
| TodayView.Sections | src/views/today.js:29-37 | the overdue section comes first and is present exactly when it has tasks; the today section is always last |
| TagView.Render | src/views/tag.js:4-47 | a missing or empty tag asks for one; otherwise one section with the empty message holding the tagged open tasks sorted by priority and time |
| TagView.RenderLists | src/views/tag.js:28-30 | a task is listed exactly when it is in the state, open, and carries exactly that tag |
| SearchView.NormalizeQuery | src/views/search.js:13 | a missing query gives `''`; otherwise the query trimmed and lower-cased, character by character |
| SearchView.Render | src/views/search.js:3-39 | a blank query gives the prompt; otherwise the matching tasks in state order, counted in the title |
| SearchView.RenderFinds | src/views/search.js:27-44 | a task is a result exactly when the query occurs in its lower-cased title or description |
| DoneView.SortCompleted | src/views/done.js:82-90 | the sorted copy is a permutation of the input |
| DoneView.SortCompletedSpec | src/views/done.js:82-90 | a later completion comes first; a stamp that does not parse counts as 0 |
| DoneView.Render | src/views/done.js:56-68 | the list is the completed tasks the filter matches sorted latest completion first (`SortCompleted`), and the clear button is disabled exactly when it is empty |
| DoneView.ClearTarget | src/views/done.js:31-40 | the empty filter clears every project, `inbox` the tasks without a project, any other value that project |
| DoneView.ClearRemovesListed | src/views/done.js:31-80 | a task is listed exactly when the clear button would remove it |
| ProjectView.NormalizedProjectId | src/views/project.js:8 | a given project id wins; otherwise the project's id, and null for the inbox route |
| ProjectView.Render | src/views/project.js:8-37 | with no project a scope other than null or undefined is not found; otherwise the open tasks of the scope in manual order, under the project's name |
| ProjectView.InboxRoute | src/app.js:167-173 | the inbox route lists exactly the open tasks without a project |
| ProjectView.ProjectRoute | src/app.js:167-173 | a project route is not found exactly when no project has the id, and otherwise lists exactly the open tasks of that project under its name |
| Store.SortByOrder | src/state/store.js:68-74 | the sorted copy is a permutation of the collection |
| Store.SortByOrderSpec | src/state/store.js:68-74 | the copy is ordered by order, a non-finite order counting as 0, and items with equal keys keep their input order |
| Store.Resequence | src/state/store.js:60-66 | item i gets order (i + 1) * 1000 and nothing else changes |
| Store.ResequenceOrders | src/state/store.js:60-66 | after resequencing the orders are 1000, 2000, … and strictly increasing, ids untouched |
| Store.FindIndex | src/state/store.js:78 | the index found is the first item carrying the id; no index means no item carries it |
| Store.MoveItem | src/state/store.js:81-83 | the two splices put the item taken from `from` at `to`, keep the length and the multiset, and leave the other items in their relative order |
| Store.ReorderCollection | src/state/store.js:76-85 | the length is kept, and an id the collection does not hold gives it back untouched |
| Store.FoundAfterSort | src/state/store.js:77-79 | an id the collection holds is found in its sorted copy |
| Store.ReorderFound | src/state/store.js:78-84 | with the id found, the reorder moves that item to the clamped destination of the sorted copy and resequences |
| Store.ReorderCollectionSpec | src/state/store.js:76-85 | when the id is present the result is a resequenced permutation of the collection with that item at the clamped destination |
| Store.FindTask | src/state/store.js:104 | a task found carries the id and is in the list; none found means no task carries it |
| Store.ReplaceTask | src/state/store.js:109 | the task with the id is replaced by the update, every other task stays in place |
| Store.AppendTask | src/state/store.js:92-95 | the task is appended and projects, settings and version are kept |
| Store.UpdateTaskIn | src/state/store.js:101-114 | a missing id leaves the state as it is; an emptied title is an error; otherwise only tasks with the id change, and each becomes exactly `TaskModel.UpdateTask`'s result for the found task, stamped now |
| Store.ToggleTaskIn | src/state/store.js:116-131 | a missing id leaves the state as it is; only the task with the id changes, projects and settings are kept |
| Store.ToggleTaskDoneSpec | src/state/store.js:116-131 | the toggled task is done exactly when forced done, or when it was open and nothing is forced; only doneAt and updatedAt change |
| Store.ToggledTask | src/state/store.js:122-123 | the updated task is done exactly when it should complete, and differs only in doneAt and updatedAt |
| Store.DeleteTaskIn | src/state/store.js:133-141 | no task with the id remains; projects and settings are kept |
| Store.DeleteTaskSpec | src/state/store.js:133-141 | a task remains exactly when it was there and carries another id |
| Store.TasksIn | src/state/store.js:147-149 | the scope filter holds only tasks of the scope, each taken from the list |
| Store.TasksInComplete | src/state/store.js:147-149 | the scope filter holds every task of the scope |
| Store.TasksInEmpty | src/state/store.js:147-149 | a scope no task belongs to selects no task |
| Store.Replacements | src/state/store.js:155-158 | the replacement map keeps the number of tasks |
| Store.ReplacementOf | src/state/store.js:155-158 | with unique ids a task finds a replacement exactly when it is in the scope, and the replacement is that task re-ordered |
| Store.ReplacementsSpec | src/state/store.js:155-158 | replacing from a resequenced scope leaves tasks outside the scope untouched and changes only the order of those inside |
| Store.ScopePermutation | src/state/store.js:147-158 | a resequenced permutation of the scope filter is what the replacement step expects |
| Store.ReorderWitnessSpec | src/state/store.js:76-85 | the reorder of a scope holding the id resequences a permutation of that scope |
| Store.ReorderTaskIn | src/state/store.js:143-167 | projects and settings are kept and the number of tasks is unchanged |
| Store.ReorderTaskSpec | src/state/store.js:143-167 | with unique ids a task outside the scope is unchanged and one inside changes only its order; an id the scope lacks leaves the state as it is |
| Store.ReorderResequencesScope | src/state/store.js:143-167 | when the dragged task is in the scope, every task of the scope ends with an order of 1000 times some k between 1 and the number of tasks |
| Store.ProjectIdJs | src/state/store.js:174-175 | the project id handed to the task model reads back as the scope |
| Store.MoveTaskIn | src/state/store.js:169-191 | projects and settings are kept, the number of tasks is unchanged, and a missing id leaves the state as it is |
| Store.MovedTask | src/state/store.js:175 | the moved task differs from the original only in projectId and the stamp |
| Store.MoveTaskSpec | src/state/store.js:169-191 | with unique ids the moved task changes only projectId, order and updatedAt, the other tasks of the target scope change only their order, and every other task is untouched |
| Store.MovedReplacements | src/state/store.js:176-182 | once the moved task is written, it and the rest of the target scope change only their order and every other task is untouched |
| Store.FindProject | src/state/store.js:210 | a project found carries the id and is in the list; none found means no project carries it |
| Store.AppendProject | src/state/store.js:198-201 | the project is appended and tasks, settings and version are kept |
| Store.UpdateProjectIn | src/state/store.js:207-220 | a missing id leaves the state as it is; an emptied name is an error; otherwise only projects with the id change, and each becomes exactly `ProjectModel.UpdateProject`'s result for the found project, stamped now |
| Store.ResolveBehavior | src/state/store.js:225-228 | a falsy behaviour falls back to the setting; a given one deletes tasks exactly when it is `delete-with-tasks` |
| Store.DeleteProjectIn | src/state/store.js:222-243 | no project with the id and no task of that project remains; settings are kept |
| Store.DeleteProjectSpec | src/state/store.js:222-243 | exactly the projects with the id go; deleting with tasks keeps exactly the tasks of other projects; any other behaviour keeps every task in place and clears only that project's ids |
| Store.ReorderProjectIn | src/state/store.js:245-253 | tasks and settings are kept, and an unknown id leaves the state as it is |
| Store.ReorderProjectSpec | src/state/store.js:245-253 | a known project is moved to the clamped destination of a permutation of the projects, all resequenced to 1000, 2000, … |
| Store.UpdateSettingsIn | src/state/store.js:257-275 | each setting takes a recognised value from the updates and otherwise keeps its value; tasks, projects and version are kept |
| Store.UpdateSettingsIdempotent | src/state/store.js:257-275 | applying the same settings update twice is the same as once |
| Store.ClearCompletedIn | src/state/store.js:277-294 | clearing only removes tasks, and keeps projects and settings |
| Store.ClearCompletedSpec | src/state/store.js:277-294 | an open task is never removed; without a scope every done task goes, with one exactly the done tasks of that scope |
| Store.Deliveries | src/state/store.js:12-18 | every subscriber receives the payload once, in subscription order |
| Store.FailureCount | src/state/store.js:13-17 | no more errors are logged than there are subscribers |
| Store.Store.constructor | src/state/store.js:6-7 | the store starts with the loaded state and no listeners |
| Store.Store.Emit | src/state/store.js:9-19 | every subscriber of the event receives the payload in order whether or not an earlier one throws, each throw is logged, and state and listeners are unchanged |
| Store.Store.SetState | src/state/store.js:21-26 | the state is replaced, a save of it is scheduled and the change is broadcast to the state subscribers |
| Store.Store.Subscribe | src/state/store.js:34-39 | the callback joins the event's set once and nothing else changes |
| Store.Store.Unsubscribe | src/state/store.js:40-45 | the event's set becomes the old set without the callback, in the same order, and the event is dropped once that set is empty; other events are untouched |
| Store.Store.ResetState | src/state/store.js:52-54 | the default state is committed and broadcast as a reset |
| Store.Store.AddTask | src/state/store.js:89-99 | an invalid input throws before anything changes; otherwise the new task is appended and committed |
| Store.Store.UpdateTask | src/state/store.js:101-114 | a thrown model error leaves everything as it was; otherwise the producer's state is committed, a missing id re-committing the same state |
| Store.Store.ToggleTaskDone | src/state/store.js:116-131 | the toggle producer's state is committed with the local stamp of now |
| Store.Store.DeleteTask | src/state/store.js:133-141 | the delete producer's state is committed |
| Store.Store.ReorderTask | src/state/store.js:143-167 | the reorder producer's state is committed |
| Store.Store.MoveTaskToProject | src/state/store.js:169-191 | the move producer's state is committed |
| Store.Store.AddProject | src/state/store.js:195-205 | an empty name throws before anything changes; otherwise the new project is appended and committed |
| Store.Store.UpdateProject | src/state/store.js:207-220 | a thrown model error leaves everything as it was; otherwise the producer's state is committed |
| Store.Store.DeleteProject | src/state/store.js:222-243 | the delete producer's state is committed |
| Store.Store.ReorderProject | src/state/store.js:245-253 | the reorder producer's state is committed |
| Store.Store.UpdateSettings | src/state/store.js:257-275 | the settings producer's state is committed |
| Store.Store.ClearCompletedTasks | src/state/store.js:277-294 | the clear producer's state is committed |
| Seqs.FilterDistinct | src/state/store.js:41 | removing a callback, or any filtering, keeps a duplicate-free listener set duplicate-free |
| Store.RemoveAtMultiset | src/state/store.js:82 | the item `splice` removes and what is left are together the sorted list |
| Store.InsertAtSpec | src/state/store.js:83 | inserting at the target index puts the item there, adds exactly that item, and removing it again gives the rest back |
| Store.ReorderedScope | src/state/store.js:143-153 | the reordered scope is every task of the scope, each once, re-numbered 1000, 2000, … in its new order |
| Storage.NormalizeSettings | src/state/storage.js:216-221 | a null argument throws; otherwise deleting is chosen exactly by the text `delete-with-tasks` and any other value moves to the inbox, the 12-hour clock is chosen exactly by `12h` and any other value gives 24h, and a missing argument gives the base settings |
| Storage.BehaviorOf | src/app.js:475-478 | a `removeProjectBehavior` value read into a setting holds that same value |
| Storage.FormatOf | src/app.js:475-478 | a `timeFormat` value read into a setting holds that same value |
| Storage.NormalizeLoadedTask | src/state/storage.js:234-242 | a task whose due date does not parse is kept as it is; a parsable one only has its due date rewritten in local ISO form |
| Storage.NormalizeLoadedState | src/state/storage.js:223-245 | anything but a version-1 object gives the default state; a null settings value throws; otherwise version 1, the projects kept (or emptied), each task its `NormalizeLoadedTask` form (an unparsable due date kept, a parsable one re-rendered in local ISO form) and the settings `NormalizeSettings`' value |
| Storage.LoadState | src/state/storage.js:255-268 | a missing, unreadable or throwing document gives the default state; a stored document that normalises gives exactly its normalised state |
| Storage.BuildDemoProjects | src/state/storage.js:14-24 | one project per preset with the preset's id and name and a valid hex colour, ordered 1000, 2000, …, both stamps now |
| Storage.SlotsInRange | src/state/storage.js:164-165 | every visited slot names an entry of the schedule |
| Storage.DemoSlotCount | src/state/storage.js:38-159 | the demo schedule visits 45 (entry, day) pairs |
| Storage.BuildDemoTasks | src/state/storage.js:26-194 | the nested loops produce exactly one task per visited slot, in visiting order, task k ordered (k + 1) * 1000 |
| Storage.DemoEntryDone | src/state/storage.js:164-192 | after the days of entry i the tasks are those of the slots of the first i + 1 entries |
| Storage.GetDefaultState | src/state/storage.js:247-253 | the default state is version 1 with the base settings; its 4 projects carry the presets' ids and names; its 45 tasks are ordered 1000, 2000, …, and task k has the title, project and start time of the k-th (entry, day) slot and is open |
| Storage.ScheduleProjectsKnown | src/state/storage.js:38-159 | every schedule entry names one of the preset projects |
| Storage.ScheduleProjectsNamed | src/state/storage.js:38-159 | every schedule entry names a project, so no demo task is left without one |
| Storage.DemoTasksContent | src/state/storage.js:160-190 | demo task k takes its title, project and due time from its slot's entry and day, and is open |
| Storage.DemoTasksInProjects | src/state/storage.js:160-190 | when every entry names a preset, every demo task belongs to a demo project |
| Storage.DefaultTasksHaveProjects | src/state/storage.js:247-253 | every task of the default state belongs to one of its projects |
| Storage.SaveScheduler.constructor | src/state/storage.js:206-207 | nothing is pending, no timer is armed and nothing was written |
| Storage.SaveScheduler.ScheduleSave | src/state/storage.js:270-288 | the state becomes pending and any live timer is cancelled; with storage one new timer is armed for it, without storage none |
| Storage.SaveScheduler.Fire | src/state/storage.js:280-287 | the firing timer writes the latest pending snapshot unless the write throws, and is then spent |
| Storage.SaveTwiceWritesLatest | src/state/storage.js:270-288 | two saves in a row followed by the timer write only the second state |
| Router.PairsGet | src/router.js:23-24 | the value found is that of a non-empty `key=value` piece with the key; none found means no such piece |
| Router.QueryGetSingle | src/router.js:23-24 | a query written as one `key=value` pair reads back its value |
| Router.IndexOfAbsent | src/router.js:12 | a character the text lacks is searched to the end |
| Router.IndexOfAt | src/router.js:12 | the search finds the first occurrence |
| Router.ParseRouteFromHash | src/router.js:10-55 | every hash parses to a known route name; an empty path or `/` gives the default route; project and tag routes come from their prefix with a non-empty suffix; done and search from their own paths |
| Router.RouteOf | src/router.js:15-54 | the switch on the decoded path gives only known route names, each from the path that names it |
| Router.NavigateHash | src/router.js:88-125 | a nameless route gives no hash; every other hash starts with `#`; a project or tag without its parameter, or an unknown name, goes to `#/today` |
| Router.LeadingHashOptional | src/router.js:11 | a leading `#` does not change what a hash parses to |
| Router.SplitFirst | src/router.js:12 | splitting at the first separator gives the part before it and then the pieces of the rest |
| Router.SplitNone | src/router.js:12 | a text without the separator splits into itself |
| Router.PathOfQuery | src/router.js:11-12 | the path of `#<p>?<q>` is p, and q is its query when it has no further `?` |
| Router.RouteOfFixed | src/router.js:15-26 | the fixed paths parse to their own route names |
| Router.RouteOfNamed | src/router.js:34-46 | `/project/<id>` and `/tag/<name>` with a non-empty suffix parse to that id or name |
| Router.NavigateRoundTripName | src/router.js:88-122 | parsing the hash navigate builds for today, upcoming, calendar or done gives back that route name |
| Router.NavigateRoundTripNamed | src/router.js:107-112 | a project id or tag name without `?` survives the round trip through the hash |
| Router.NavigateRoundTripQuery | src/router.js:96-119 | the done view's project filter and the search text survive the round trip through the hash |
| Router.RouteOfQuery | src/router.js:22-26 | the done and search paths read their parameter from a one-pair query |
| Router.RouteOfDoneQuery | src/router.js:22-26 | `/done?project=<v>` parses to the done route filtered by v |
| Router.RouteOfSearchQuery | src/router.js:48-52 | `/search?q=<v>` parses to the search route for v |
| Router.UnknownPathIsDefault | src/router.js:30-32 | a path the parser does not know gives the default route |
| Router.Notices | src/router.js:57-59 | every subscriber hears the route once, in subscription order |
| Router.HashRouter.constructor | src/router.js:1-8 | the current route is the parse of the initial hash and nobody is subscribed |
| Router.HashRouter.HandleHashChange | src/router.js:61-64 | the current route becomes the parse of the hash and every subscriber is told, in order |
| Router.HashRouter.InitRouter | src/router.js:66-76 | the callback is subscribed once and hears the current route at once |
| Router.HashRouter.Navigate | src/router.js:88-133 | a nameless route does nothing; navigating to the current hash re-parses and broadcasts it; any other hash is assigned, leaving the broadcast to the hashchange |
| Notify.PermissionState.constructor | src/utils/notify.js:1 | the cached permission starts as `default` |
| Notify.PermissionState.CanUseNative | src/utils/notify.js:17-20 | native notifications are usable exactly when the host supports them and the browser or the cached answer says granted |
| Notify.PermissionState.EnsurePermission | src/utils/notify.js:3-15 | without support the answer is denied; with either side already granted it is granted without asking; otherwise it is the prompt's answer; the cache holds the result |
| Notify.NativeAlert | src/utils/notify.js:80-84 | the notification is titled with the reminder prefix and the task's title, and carries the description or, for an empty one, the stock text |
| Notify.TimeoutDelay | src/utils/notify.js:66-70 | the timeout is 0 exactly when the reminder is due, the time left when it fits, and capped at 2^31 - 1 ms |
| Notify.LastPending | src/utils/notify.js:39-53 | the task sync settles on for an id is a pending task of the list with that id; none means no task with the id is pending |
| Notify.LastPendingSnoc | src/utils/notify.js:39-53 | a later pending task with the id replaces the earlier one |
| Notify.LastPendingUnique | src/utils/notify.js:39-53 | with unique ids a pending task is the one sync settles on for its id |
| Notify.SyncStep | src/utils/notify.js:39-53 | one reconciled task extends the synced prefix by that task |
| Notify.SyncStepIds | src/utils/notify.js:40-52 | after a step an id with a pending task has a timer exactly when its reminder parses, holding that reminder, and other ids keep theirs |
| Notify.SyncStepKept | src/utils/notify.js:44-51 | after a step a timer still asked for is kept and one replaced is cleared |
| Notify.ReconcileAllStep | src/utils/notify.js:39-53 | one turn of the first loop grows the collected ids and the synced prefix by the task, and leaves an already matching map as it is |
| Notify.SyncedStart | src/utils/notify.js:38 | before any task no id is collected and the map is synced with the empty prefix |
| Notify.SettledStep | src/utils/notify.js:44-47 | with unique ids a step over a map that already matches the list changes nothing |
| Notify.SyncDone | src/utils/notify.js:55-60 | after the second loop the map matches the list, timers still asked for are untouched and dropped ones are cleared |
| Notify.SettledDone | src/utils/notify.js:55-60 | a map that matches the list loses nothing in the second loop |
| Notify.ClearKeepsValid | src/utils/notify.js:49-50 | clearing an entry's timer and dropping the entry keeps each handle either live for one entry or cleared |
| Notify.ScheduleKeepsValid | src/utils/notify.js:67-71 | storing a fresh timer for an id without one keeps each handle either live for one entry or cleared |
| Notify.ReminderManager.constructor | src/utils/notify.js:32-35 | the manager starts with no timers |
| Notify.ReminderManager.ClearEntry | src/utils/notify.js:49-50 | the entry's timer is cleared and the entry dropped |
| Notify.ReminderManager.Schedule | src/utils/notify.js:63-72 | an unparsable reminder sets no timer; otherwise a new timer with the capped delay is stored under the id with the reminder |
| Notify.ReminderManager.Trigger | src/utils/notify.js:74-88 | the task's timer is cleared and dropped, then the native notification is shown when allowed, otherwise the task goes to `onReminder` when there is one |
| Notify.ReminderManager.Reconcile | src/utils/notify.js:40-52 | a task that is not pending is skipped; a pending one keeps a timer for the same reminder and otherwise has the old timer cleared and a new one scheduled |
| Notify.ReminderManager.DropOthers | src/utils/notify.js:55-60 | exactly the timers of ids outside the kept set are cleared and dropped; the others are untouched |
| Notify.ReminderManager.ReconcileAll | src/utils/notify.js:38-53 | the collected ids are exactly those with a pending task, the map is synced with the whole list, and an already matching map with unique ids is left as it is |
| Notify.ReminderManager.ReconcileNext | src/utils/notify.js:39-53 | one turn reconciles the next task and collects its id when pending |
| Notify.ReminderManager.Sync | src/utils/notify.js:37-61 | afterwards there is a timer exactly for the ids whose pending task has a parsable reminder, holding that reminder; a timer still asked for is kept and any other is cleared; a map already in sync is left alone |
| Notify.SyncTwice | src/utils/notify.js:37-61 | syncing the same list twice sets no timer the second time |
| App.ParseTimestamp | src/app.js:511-514 | a missing or unparsable `updatedAt` counts as time 0; otherwise the clock's parse of it |
| App.FirstIds | src/app.js:482-488 | the insertion order of the merge map holds only non-empty ids |
| App.FirstIdsSpec | src/app.js:482-501 | the merge map's keys are duplicate-free and are exactly the non-empty ids found on either side |
| App.LastWith | src/app.js:484-488 | the item a side leaves in the map for an id belongs to that side and carries that id |
| App.LastWithDefined | src/app.js:484-488 | a side leaves an item for an id exactly when the id is non-empty and some item of that side has it |
| App.Pick | src/app.js:489-501 | the item kept for an id comes from one of the two sides and carries that id |
| App.PickDefined | src/app.js:482-501 | an item is kept for an id exactly when the id is non-empty and appears on some side |
| App.MergedValues | src/app.js:502 | `map.values()` lists, key by key in insertion order, the item kept for that key |
| App.PickSkip | src/app.js:489-501 | remote items with other ids do not affect what is kept for an id |
| App.LastWithUnique | src/app.js:484-488 | in a side with unique ids, the item left for an id is the one item with that id |
| App.MergeKeepsLocalOnly | src/app.js:484-488 | a local item whose id the remote side lacks survives the merge unchanged |
| App.MergeTakesRemoteOnly | src/app.js:489-495 | a remote item whose id is new locally is added |
| App.MergeConflict | src/app.js:496-500 | on an id both sides have, the remote item wins when its timestamp is not older (ties go to remote), the local one otherwise |
| App.LocalStep | src/app.js:484-488 | one step of the local pass keeps the loop invariant relating the map to the items seen |
| App.RemoteStep | src/app.js:489-501 | one step of the remote pass keeps the loop invariant relating the map to the items seen |
| App.LocalThenRemote | src/app.js:484-489 | the state after the local pass is the start of the remote pass |
| App.RemotePassValues | src/app.js:502 | after both passes, the map's values in key order are the merged values |
| App.MergeCollection | src/app.js:482-503 | the loop over both lists gives the merged values sorted by `order` |
| App.FillLocal | src/app.js:484-488 | the local loop ends with the map holding, per id, the last local item |
| App.FillRemote | src/app.js:489-501 | the remote loop ends with the map holding, per id, the item the conflict rule picks |
| App.MergeCollectionSpec | src/app.js:482-509 | the merged list has unique ids, one item for every id on either side, each item the one the conflict rule picks, in non-decreasing `order` |
| App.MergedState | src/app.js:468-480 | the remote version wins when present, and the settings are the remote settings spread over the local ones (`OverlaySettings`) |
| App.OverlaySettings | src/app.js:475-478 | a setting the remote settings object has takes its value as it is, checked or not; a missing one keeps the local setting |
| App.MergedBehaviorMovesToInbox | src/app.js:475-478 | a remote behaviour other than `delete-with-tasks` makes a later `deleteProject` without a behaviour move the project's tasks to the inbox |
| App.MergeEmptyRemote | src/app.js:468-480 | merging an empty remote backup keeps local settings and version |
| App.MergedTasksSpec | src/app.js:468-503 | the merged tasks have unique ids, are in order, and hold the remote copy of a shared task exactly when its timestamp is not older |
| App.MergeCloudState | src/app.js:468-480 | the two map-filling merges and the settings overlay give exactly `MergedState` |
| App.SyncedAt | src/app.js:197 | an empty `syncedAt` counts as absent; a non-empty one is kept |
| App.SameBackupSkipped | src/app.js:198-200 | a backup whose stamp equals the last restored one is skipped unless forced, and restored when forced |
| App.RouteDefaults | src/app.js:373-394 | project routes default the project id (empty id means inbox), tag routes the tag, today and upcoming an all-day due date today or tomorrow at 9:00, any other route nothing |
| App.QuickAddPayload | src/app.js:242-249 | no task without a truthy title; the user's fields override the route defaults, and the default tags are used when the user gave none |
| App.QuickAddUsesRoute | src/app.js:242-249 | a quick add on a project route files the task in that project, and on a tag route tags it with that tag, unless the user said otherwise |
| App.RouteDefaultsCorrected | src/app.js:377-378 | as `RouteDefaults`, except that the inbox route `#/project/inbox` gives a null project id |
| App.QuickAddInboxHidden | src/app.js:242-249 | as written, a task quick-added on the inbox route gets the project id `inbox` and the inbox view does not list it |
| App.QuickAddInboxShown | src/app.js:242-249 | with the corrected defaults, such a task has no project and the inbox view lists it while it is open |
| App.ReorderScope | src/app.js:283-286 | the scope handed to `reorderTask`: the view's scope when given, else a project route's non-empty id, else null |
| App.ReorderScopeCorrected | src/app.js:283-286 | as `ReorderScope`, except that the inbox route's id is read as null; it differs from the written scope only there |
| App.InboxReorderIgnored | src/app.js:283-286 | as written, a drag-reorder in the inbox view (the view passes null) reaches the store with the scope `inbox` and leaves the state unchanged |
| App.InboxReorderApplies | src/app.js:283-286 | with the corrected scope, the reorder keeps every task of a project and renumbers every inbox task to a multiple of 1000 when the dragged task is in the inbox |
| App.ToggleSubtaskUpdate | src/app.js:268-274 | no update without a task or a subtask id; otherwise the subtasks with only the matching one's `done` changed |
| App.Toggled | src/app.js:270-272 | same length, ids and titles; `done` is `checked` exactly for subtasks with the given id |
| App.ToggleSubtaskEffect | src/app.js:268-274 | toggling a subtask through `updateTask` changes only that subtask's `done` and the task's `updatedAt` |
| App.NormalizeSubtasksJs | src/models/task.js:52-61 | normalizing subtasks already in normal form returns them unchanged |
| App.ToggleTimeFormatUpdate | src/app.js:458-462 | the update always names one of the two clocks, and names 12h exactly when the current value is falsy or `24h`; 24h gives 12h and 12h gives 24h |
| App.ToggleTimeFormatTwice | src/app.js:458-462 | one toggle sets a known clock different from the current one and nothing else; from a known clock two toggles give back the original state |
| App.App.constructor | src/app.js:35-44 | a new app holds the initial state as its snapshot, no route, no restore running, nothing pushed |
| App.App.OnStateChanged | src/app.js:77-86 | the new state is taken in, and pushed only when it differs from the last snapshot |
| App.App.BeginRestore | src/app.js:189-192 | a restore starts only when none is running; the gate is then closed |
| App.App.FinishRestore | src/app.js:193-209 | when a pulled state should be restored, the merged state is passed to `replaceState` and becomes the snapshot, and the stamp is recorded; otherwise nothing changes; the gate reopens in every case |
| App.App.Restore | src/app.js:201-204 | the merged state replaces the store state and becomes the snapshot, and the backup's stamp is recorded |
| App.App.RestoreAndBroadcast | src/app.js:77-86 | a restored state comes back through `state:changed` without being pushed again |
| Sidebar.NameLePreorder | src/components/Sidebar.js:263 | the name comparison used to sort tag entries is a total preorder |
| Sidebar.CountedStep | src/components/Sidebar.js:256-259 | counting one more tag keeps every count equal to the tag's occurrences so far |
| Sidebar.CountedNextTask | src/components/Sidebar.js:255-260 | finishing a task's tags moves the counting invariant on to the next task |
| Sidebar.CountTags | src/components/Sidebar.js:256-259 | the inner loop leaves every count equal to the tag's occurrences, tags in first-seen order |
| Sidebar.Entries | src/components/Sidebar.js:261-262 | one `{name, count}` entry per map key, in key order |
| Sidebar.SortedEntriesCounted | src/components/Sidebar.js:261-263 | after sorting, every entry's count is its tag's occurrences across all tasks, and every tag that occurs has an entry |
| Sidebar.CollectTags | src/components/Sidebar.js:253-264 | one entry per tag in use, with the number of its occurrences across all tasks, sorted by name |
| Sidebar.SortEntries | src/components/Sidebar.js:263 | a permutation of the entries in strictly ascending name order |
| Sidebar.ProjectEntries | src/components/Sidebar.js:107-123 | the project list is the inbox entry followed by every project in `order` order |
| Sidebar.ProjectEntriesSpec | src/components/Sidebar.js:121-123 | listed projects are in non-decreasing `order` and are exactly the state's projects |
| TagPicker.ParseSegments | src/components/TagPicker.js:44-47 | at most one tag per segment, and no empty tag |
| TagPicker.TrimmedSegmentClean | src/components/TagPicker.js:46-47 | a trimmed, non-empty segment without commas is a clean tag |
| TagPicker.ParseSegmentsClean | src/components/TagPicker.js:44-47 | every tag parsed from comma-free segments is clean |
| TagPicker.ParseSegmentsAppend | src/components/TagPicker.js:44-47 | parsing distributes over concatenated segment lists |
| TagPicker.InputTagsClean | src/components/TagPicker.js:42-47 | every tag read from the field is clean: trimmed, non-empty, no comma |
| TagPicker.LastToken | src/components/TagPicker.js:52-56 | the filter term never contains a comma; its value is stated by `TagPicker.LastTokenSpec` |
| TagPicker.LastTokenSpec | src/components/TagPicker.js:52-56 | the filter term is the text after the field's last comma (the whole text when there is none), trimmed and lower-cased |
| TagPicker.SplitFirst | src/components/TagPicker.js:44-45 | splitting at the first separator gives the head segment, then the split of the rest |
| TagPicker.SplitNone | src/components/TagPicker.js:44-45 | a string without the separator splits into itself |
| TagPicker.Spaced | src/components/TagPicker.js:95 | the segments after the first one carry the space of the `, ` separator |
| TagPicker.SplitJoinedStep | src/components/TagPicker.js:95 | splitting `head, rest` gives `head` then the split of ` rest` |
| TagPicker.SplitJoined | src/components/TagPicker.js:95 | splitting tags joined by `, ` gives the first tag, then each further tag with a leading space |
| TagPicker.TrimClean | src/components/TagPicker.js:46 | trimming leaves a clean tag unchanged, with or without a leading space |
| TagPicker.ParseSpaced | src/components/TagPicker.js:44-47 | parsing space-prefixed clean tags gives back the tags |
| TagPicker.ParseJoinedSegments | src/components/TagPicker.js:44-47 | parsing the segments of joined clean tags gives back the tags |
| TagPicker.ParseLoneSpace | src/components/TagPicker.js:98 | the trailing space after the last `, ` yields no tag |
| TagPicker.InputTagsOfJoined | src/components/TagPicker.js:118-122 | reading back the field that `setValue` wrote gives the same clean tags |
| TagPicker.Suggestions | src/components/TagPicker.js:63-67 | at most eight suggestions |
| TagPicker.SuggestionsSpec | src/components/TagPicker.js:63-67 | a suggestion is an available tag that is not chosen and matches the filter case-insensitively; every such tag is suggested unless eight are already shown |
| TagPicker.EmptyFilterOffersAll | src/components/TagPicker.js:63-67 | with an empty filter every available tag not chosen is offered, up to eight |
| TagPicker.Shown | src/components/TagPicker.js:58-86 | nothing is shown without focus; with focus the suggestions are shown |
| TagPicker.JoinSnoc | src/components/TagPicker.js:95 | joining one more tag appends `, ` and the tag |
| TagPicker.SelectedInputJoins | src/components/TagPicker.js:94-98 | the field after a selection is the prefix tags and the chosen tag joined by `, `, plus a trailing `, ` |
| TagPicker.SelectedSegments | src/components/TagPicker.js:94-98 | splitting the field after a selection gives the tags, spaced, and a final lone space |
| TagPicker.SelectionReadsBack | src/components/TagPicker.js:88-101 | reading the field after a selection gives exactly the tags the selection set |
| TagPicker.SelectionClearsFilter | src/components/TagPicker.js:88-101 | after a selection the filter term is empty |
| TagPicker.Distinct | src/components/TagPicker.js:125-126 | the same tags, each once |
| TagPicker.BaseLePreorder | src/components/TagPicker.js:127 | the suggestion order is a total preorder |
| TagPicker.NormalizeSuggestionsSpec | src/components/TagPicker.js:124-128 | the available tags are exactly the non-empty given ones, each once, sorted |
| TagPicker.TagPicker.constructor | src/components/TagPicker.js:2-8 | a new picker has no tags, no available tags, an empty field and nothing shown |
| TagPicker.TagPicker.HandleInput | src/components/TagPicker.js:42-50 | the tags are re-read from the field and the suggestions re-filtered by the last token |
| TagPicker.TagPicker.Focus | src/components/TagPicker.js:20-23 | focusing shows the suggestions for the last token |
| TagPicker.TagPicker.SelectSuggestion | src/components/TagPicker.js:88-99 | the tags become the parsed prefix plus the chosen tag, the field is rewritten to match, and suggestions are re-rendered unfiltered |
| TagPicker.TagPicker.SetValue | src/components/TagPicker.js:118-122 | a non-array sets no tags; the field shows the tags joined by `, ` |
| TagPicker.TagPicker.SetSuggestions | src/components/TagPicker.js:124-130 | the available tags are normalized; the chosen tags and field are unchanged |
| SyncConfig.StripCr | src/config/syncConfig.js:3 | a line split at `\n` loses the `\r` right before the break, and nothing else |
| SyncConfig.Lines | src/config/syncConfig.js:3 | the lines of the file are its `\n`-separated pieces, each without a trailing `\r` |
| SyncConfig.RestAfterFirst | src/config/syncConfig.js:6-8 | the key is the text before the first `=`, and re-joining the rest gives everything after it, other `=` signs included |
| SyncConfig.EntryByIndex | src/config/syncConfig.js:4-8 | blank lines, `#` comments and lines starting with `=` set nothing; any other line sets the trimmed key to the trimmed text after the first `=` |
| SyncConfig.ApplyAppend | src/config/syncConfig.js:3-9 | reading two runs of lines is reading the first, then the second |
| SyncConfig.ApplyLaterWins | src/config/syncConfig.js:3-9 | a key the lines set takes the value the last of them gave it; other keys keep their earlier value |
| SyncConfig.SkippedLine | src/config/syncConfig.js:5 | a blank or comment line changes nothing |
| SyncConfig.ParseEnv | src/config/syncConfig.js:1-11 | the loop over the lines gives the map of the last value set for each key |
| SyncConfig.ApplyNext | src/config/syncConfig.js:3-9 | reading from line i is applying line i, then reading the lines after it |
| SyncConfig.Setting | src/config/syncConfig.js:37-38 | the first key's value when non-empty, else the second key's value, else the empty string |
| Sync.DigitInAlphabet | src/utils/SyncManager.js:11 | every six-bit value maps to a character of the base64 alphabet |
| Sync.PadOfGroup | src/utils/SyncManager.js:11 | a last group of one, two or three bytes gets two, one or no `=` |
| Sync.PadStep | src/utils/SyncManager.js:11 | three more bytes add one group and keep the padding |
| Sync.Quad | src/utils/SyncManager.js:11 | one group is four characters, `=` exactly in the places of the missing bytes, the rest alphabet digits |
| Sync.PrefixKeepsPadding | src/utils/SyncManager.js:11 | a full group in front of padded text keeps the padding at the end |
| Sync.GroupThenRest | src/utils/SyncManager.js:11 | a full first group followed by the rest has the length and padding of the whole input |
| Sync.Base64 | src/utils/SyncManager.js:11 | the `btoa` text of n bytes has 4*ceil(n/3) characters, its `=` exactly in the last Pad(n) places, the rest alphabet digits |
| Sync.ToUrlAlphabet | src/utils/SyncManager.js:12-13 | each `+` becomes `-` and each `/` becomes `_`; nothing else changes |
| Sync.FromUrlAlphabet | src/utils/SyncManager.js:36 | each `-` becomes `+` and each `_` becomes `/`; nothing else changes |
| Sync.StripPadding | src/utils/SyncManager.js:14 | the longest prefix not ending in `=`, with only `=` removed after it |
| Sync.StripExactPadding | src/utils/SyncManager.js:14 | text with exactly k trailing `=` loses exactly those k |
| Sync.UnpaddedLength | src/utils/SyncManager.js:11-14 | at most two `=` are dropped, leaving ceil(4n/3) characters |
| Sync.UrlTextUnpadded | src/utils/SyncManager.js:10-15 | the url-safe text is the standard text with the alphabet mapped and the padding cut |
| Sync.Base64UrlEncodeSpec | src/utils/SyncManager.js:10-15 | the result has no `+`, `/` or `=`, has ceil(4n/3) characters, and with the alphabet mapped back and the padding restored it is the standard encoding |
| Sync.UrlTextAlphabet | src/utils/SyncManager.js:10-15 | the url-safe text contains no `+`, `/` or `=` |
| Sync.UrlTextRoundTrip | src/utils/SyncManager.js:10-15 | mapping the alphabet back and restoring the padding gives the standard encoding |
| Sync.UnmapUnpadded | src/utils/SyncManager.js:12-14 | for padded base64 text, cutting the padding after the mapping is undone by mapping back and re-padding |
| Sync.ParseJwt | src/utils/SyncManager.js:32-41 | a payload exists only if the token has a non-empty second part, and it is the decoding of that part with the alphabet mapped back |
| Sync.ParseJwtNeedsPayload | src/utils/SyncManager.js:34-37 | a token without `.` has no payload; one with a non-empty second part is decoded |
| Sync.AccountIdOf | src/utils/SyncManager.js:107-110 | an account id is a non-empty string `sub` claim of the id token's payload |
| Sync.BaseName | src/utils/SyncManager.js:305 | a trailing `.json`, in any letter case, is removed; any other name is kept |
| Sync.BackupFileNameSpec | src/utils/SyncManager.js:303-307 | the file name ends in `.json`, the configured name's own `.json` is not doubled, and accounts with different suffixes get different files |
| Sync.AccessTokenValidity | src/utils/SyncManager.js:279-281 | with a numeric expiry, the token is valid exactly until five seconds before it, and once invalid it stays invalid |
| Sync.ExpiresIn | src/utils/SyncManager.js:192 | the lifetime is never NaN or zero; a truthy `expires_in` is used as given, anything else becomes 3600 |
| Sync.TokenRecordSpec | src/utils/SyncManager.js:191-198 | a response without `expires_in` lasts an hour; missing refresh and id tokens keep the previous ones; a fresh token with at least six seconds to live is valid when issued |
| Sync.Broadcast | src/utils/SyncManager.js:87 | every listener is called once, in registration order, with the new status |
| Sync.SyncManager.constructor | src/utils/SyncManager.js:44-55 | no tokens, idle status with no message, no listeners, nothing pending, no timer |
| Sync.SyncManager.GetStatus | src/utils/SyncManager.js:75-82 | the status carries the state, message and last sync time, and is authenticated exactly when there is a truthy access token |
| Sync.SyncManager.SetStatus | src/utils/SyncManager.js:84-88 | the status and message change, and every listener is told the new status |
| Sync.SyncManager.OnStatusChange | src/utils/SyncManager.js:66-73 | a callback is registered once and called at once with the current status; a non-function changes nothing |
| Sync.SyncManager.Unsubscribe | src/utils/SyncManager.js:70 | the listeners become the old listeners without that callback, in registration order |
| Sync.SyncManager.SchedulePush | src/utils/SyncManager.js:309-320 | the newest state replaces the pending one; a timer starts only when none is pending |
| Sync.SyncManager.TimerFires | src/utils/SyncManager.js:314-325 | the timer is cleared; with nothing pending nothing happens, otherwise the pending state is uploaded and the status turns to syncing |
| Sync.SyncManager.FinishPushAsWritten | src/utils/SyncManager.js:341-349 | success stores the copy and the sync time and connects, failure sets error; either way the pending slot is emptied |
| Sync.SyncManager.FinishPush | src/utils/SyncManager.js:341-349 | as the source, except that the slot is emptied only if it still holds the state just uploaded |
| Sync.PushLosesNewerState | src/utils/SyncManager.js:309-350 | as written, a state scheduled while an upload runs is never uploaded, pending or in flight |
| Sync.PushKeepsNewestState | src/utils/SyncManager.js:309-350 | with the corrected end of push, a schedule, a timer firing and a successful upload each keep the newest scheduled state on Drive, pending or in flight |
| Sync.PushKeepsNewerState | src/utils/SyncManager.js:309-350 | with the corrected end of push, the same sequence keeps the newer state, which is uploaded next |
| Seqs.Filter | src/views/search.js:27 | `filter` keeps only items that pass the test, taken from the input |
| Seqs.FilterMembership | src/views/search.js:27 | an item is kept exactly when it is in the input and passes the test |
| Seqs.FilterNone | src/state/store.js:147-149 | when no item passes the test, the filter keeps nothing |
| Seqs.SortSorted | src/views/helpers.js:25-46 | sorting with a total-preorder comparator gives a sorted list |
| Seqs.Sort | src/views/helpers.js:25-46 | sorting permutes the list |
| Seqs.SortStable | src/views/helpers.js:37-46 | sorting is stable: items the comparator ties keep their input order |
| Groups.GroupBy | src/utils/dates.js:54-64 | one group per key in first-seen order, each key once, each group the items with that key in input order, never empty; a key with no items has no group |

## Left out

- **DOM and event wiring.** Building elements, listeners, CSS classes, tooltips and their positioning, scrolling, and drag-and-drop events are all left out: they are presentation, and the rules behind them are modelled as values. Examples are the month cell's chips and `+n` label, the hover highlight and the click payload.
- **Presentation-only files.** These are not part of this model: `src/components/TaskItem.js`, `TaskList.js`, `Header.js`, `TaskEditorModal.js` and `DateTimePicker.js`, `src/utils/dnd.js`, `src/utils/format.js` and `src/main.js`.
- **Dates and time zones.** `Date` and `Intl` are a `Clock` value. Its parser, ISO formatters and `toLocalISOString` are opaque functions. The time zone is a fixed offset, so daylight-saving changes are not modelled. Month arithmetic is an opaque `monthOf` from a day to its month index. Headings and labels produced by `formatDateHeading`, `formatMonthLabel` and `formatFullDate` are left out.
- **Numbers.** JavaScript numbers are integers, `NaN` or ±Infinity; fractional values are not modelled. `Math.round` on a duration is therefore the identity. The pointer's pixel ratio in the calendar is a whole number of minutes, which is exact because one hour is 60 pixels. `Number(text)` reads decimal integers, `Infinity` and blank text only.
- **Strings.**
  - `toLowerCase` and `toUpperCase` fold ASCII letters only.
  - `localeCompare` is code-unit order. The tag picker's `'base'` sensitivity is ASCII lower-casing followed by code-unit order.
  - `encodeURIComponent` and `decodeURIComponent` are the identity.
  - Strings are sequences of characters, while JavaScript's `.length` and `.slice` count UTF-16 code units. The caps of 120, 200, 30 and 10000 characters in `project.js` and `task.js` therefore differ from the source for text holding characters outside the Basic Multilingual Plane.
- **Timers.** Timers are numbered handles. A delay is recorded but time does not pass: firing a timer is a separate call.
- **Storage and I/O.** localStorage, sessionStorage and `JSON.stringify`/`parse` are outside the model. A load arrives as a value, a save is an entry in a log, and snapshot comparison is value equality. `clearStoredState` and `clone` are not modelled.
- **Loaded records.** A loaded document's `projects` and `tasks` arrays are taken to hold well-formed project and task records. The source passes any JSON element of those arrays through unchecked, apart from re-rendering a task's `dueAt`.
- **Network.** The network, OAuth and PKCE are left out. This covers `fetch`, `requestToken`'s HTTP call, `handleRedirect`, `startAuthFlow`, `refreshAccessToken`, `ensureAccountId`, the Drive file lookup and upload, `pullBackup`, `disconnect` and SHA-256 in `generateCodeChallenge`. Their outcomes are parameters, for example a push's `Outcome` and a restore's pulled backup.
- **Sync configuration loading.** The synchronous `loadEnv` request and `redirectUri` are left out; the parsed `.env` text is the input.
- **Dialogs and platform checks.**
  - `confirm` and `prompt` dialogs are left out.
  - The Notification permission prompt's answer is a parameter.
  - The model assumes `window` exists.
- **App handlers that only forward a call.** These call a store or router function with their arguments and are left out:
  - `#handleTaskSubmit` and `#handleTaskDelete`;
  - `#handleProjectCreate`, `#handleProjectEdit`, `#handleProjectDelete` and `#handleProjectReorder`;
  - `#handleSearch`, `#setDoneFilter`, `#handleSyncAction` and `#collectTagSuggestions`;
  - the keyboard shortcuts.
- **App object.**
  - The `state:changed` subscriber's calls to `reminderManager.sync` and `render` are not composed with it.
  - `#restoreFromCloud`'s `!this.syncManager` guard is left out, because the constructor always creates one.
  - `this.state || getState()` is taken as `this.state`.
- **Unsubscribe closures.** The store's unsubscribe closure is the method `Store.Store.Unsubscribe`. The function `initRouter` returns to remove its subscriber is not modelled.
- Store.Store.Unsubscribe: removes the callback from the event's current set. The source's closure holds the set it was created with. If the event was dropped and subscribed again, a stale unsubscribe sees its old, empty set and deletes the event's new set; the model does not capture that aliasing.
- **Reminders.** The reminder manager's `onReminder` callback is the flag `hasOnReminder`.
- Notify.ReminderManager.DropOthers: removes stale timers in no particular order. The source walks the map in insertion order, which affects only the order of the `clearTimeout` calls; these are recorded as a set.
- Sync.SyncManager.TimerFires: requires that no upload is in flight. In the source a second timer can start a second `performPush` while the first one awaits, and the model does not interleave two pushes. It also takes the uploaded copy when the push starts, while the source reads `pendingState` after its first awaits, just before the upload.
- Sync.ParseJwt: `decode` stands for `atob`, the UTF-8 decoding and `JSON.parse`, with `None` where any of them throws.
- Sync.AccountIdOf: a `sub` claim that is not a string is treated as absent.
- DoneView.ClearRemovesListed: is stated for tasks whose project id is not the empty string. The `inbox` filter lists such a task, but clearing the inbox keeps it. Normalised tasks never carry an empty project id.
- UpcomingView.SectionsOf: a section's title is its date key; `formatDateHeading` is not modelled.
- ProjectModel.CreateProject: ids are strings. A truthy `input.id` that is not a string, such as a number, is replaced by the fresh id, while `input?.id || createId()` keeps it.
- TaskModel.CreateTask: ids and project ids are strings. A truthy non-string `input.id` is replaced by the fresh id, while `input?.id || createId()` keeps it; a non-string, non-null `projectId` becomes null here and in `TaskModel.UpdateTask`, while the source stores it as given.
- TaskModel.CleanSubtask: subtask ids are strings. A truthy id that is not a string, such as a number, is replaced by the fresh id, while `item?.id || createId()` keeps it.
- Sidebar.ProjectEntries: sorts a project whose `order` is not a finite number as order 0. The source's `a.order ?? 0` keeps `NaN` or an infinity, whose comparisons are not a consistent order. Normalised projects always carry a finite order, and there the two agree.
- TagPicker.TagPicker.SelectSuggestion: models TagPicker.js:88-99, up to the unfiltered re-render. The `input.focus()` that follows fires the focus listener when the field had no focus; the model leaves that second render to a separate call of `TagPicker.TagPicker.Focus`. After a selection of a comma-free tag, that call also shows the unfiltered list, by `TagPicker.SelectionClearsFilter`.
- App.OverlaySettings: covers the two settings the app reads. Other keys of a restored backup's settings are copied by the source and dropped by the model; no code reads them.
- App.App.RestoreAndBroadcast: `src/app.js` imports `replaceState` from `src/state/store.js` and calls it, but that module exports no such name, so as written the application module fails to load. The model takes `replaceState` to commit the merged state and broadcast `state:changed` the way `setState` does. `App.App.FinishRestore` and `App.App.Restore` record the call in `replaced`, and `RestoreAndBroadcast`'s promise rests on that reading.

## Findings

| source | as written | input that shows it | evidently intended | confidence | as-written member | corrected member |
|---|---|---|---|---|---|---|
| src/utils/dates.js:48-52 | `getDateKey` keys a task by the UTC date of its due instant (`toISOString().slice(0, 10)`), while the calendar looks tasks up by the local date of each cell (src/views/calendar.js:138-140) | three hours east of UTC, a task due at 00:30 local time on day 20000 is keyed as day 19999 and so appears in the previous day's cell | tasks are grouped by their local due date, the date the calendar cells show | not executed | Dates.UtcKeyMissesLocalDay | Calendar.DayTasksLocal |
| src/views/calendar.js:290-304 | the top handle caps the start at `initialEnd - 15` but nothing keeps it at 0 or later once the block ends before minute 15 | a task due at 00:00 with duration 5: any top drag, even one that does not move, gives start -10, and pointer-up moves the task to 23:50 of the previous day | the start stays within the block's own day, and a block too short to keep its end becomes the day's first quarter | not executed | Calendar.TopDragAsWritten | Calendar.TopDrag |
| src/views/upcoming.js:25-31 | `isWithinRange` ends the range at midnight of today + 6, so of the seventh day only the instant 00:00 is let in | a task due at 09:00 six days from today is in the seven days the view covers but is not listed | the range covers today and the six days after it in full | not executed | UpcomingView.RangeMissesSeventhDay | UpcomingView.RangeWithinSevenDays |
| src/utils/SyncManager.js:309-350 | `performPush` clears `pendingState` in its `finally` block even when a newer state was scheduled while the upload ran | `schedulePush(s1)`; the timer fires and the upload of s1 starts; `schedulePush(s2)` arms a new timer; the upload succeeds and clears s2; the new timer finds nothing to push, so s2 never reaches Drive | a state scheduled during an upload stays pending and is pushed by its own timer | not executed | Sync.PushLosesNewerState | Sync.PushKeepsNewerState |
| src/app.js:373-394 | `#getRouteDefaults` offers the route id as the project id, and on the inbox route `#/project/inbox` that id is `inbox`, which no project has; the view reads that route as "no project" (src/app.js:167-173) | on `#/project/inbox`, quick-add "Buy milk": the task is stored with project id `inbox`, and the inbox view, which lists tasks without a project, does not show it | the inbox route files a new task without a project | not executed | App.QuickAddInboxHidden | App.QuickAddInboxShown |
| src/app.js:283-286 | `#handleTaskReorder` replaces the view's null scope by the route id, which on the inbox route is `inbox`; `reorderTask` then looks for tasks of a project `inbox` (src/state/store.js:146-152) | on `#/project/inbox` with two open inbox tasks, drag the second above the first: the store finds no task in scope `inbox` and nothing changes | the inbox view's reorder renumbers the inbox tasks | not executed | App.InboxReorderIgnored | App.InboxReorderApplies |
