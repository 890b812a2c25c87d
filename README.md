# TaskFlow task manager: a verified model of its core

TaskFlow is a single-page to-do application. Two in-memory stores sit behind it:
- The task store (`taskService`) holds tasks.
- The category store (`categoryService`) holds categories.

Five pages read those stores and keep a local copy of their list in step with what the user does:
- All Tasks
- Today
- Upcoming
- Archive
- Category

A `useTaskFilters` hook narrows each page's list by search text, category, priority, completion and date range.

Shared components act on the tasks:
- The task list: selection, editor, bulk bar.
- A task card: completion toggle, delete, due-date and priority classes.
- The bulk bar, the filter bar and its priority badges.
- The task editor dialog and the quick-add control.
- The sidebar's counters.

This project models that core in Dafny, one module per source file, plus shared modules:
- `Records`: the task and category records and the store's merge rule.
- `RecordIds`: how a new record's Id is chosen.
- `Lists`, `Sorting`, `Grouping`, `Text`, `Dates`: JavaScript's array, sort, string and date behaviour, as the core uses it.
- `Reconcile`: the replace-by-Id and remove-by-Id steps every page repeats.
- `TaskCounts`: the completed/total counters several views show.

The model follows the source's form:
- Each store is a class whose methods change its list in place. Each method is proved against a pure function of the old list.
- Each page is a class whose handlers reassign its list. Each handler is specified by a function (`Loaded`, `Added`, `Updated`), and lemmas prove the page's invariant and its other promises about those functions.
- In-place algorithms keep their loops:
  - the stable insertion sort behind `Array.prototype.sort`;
  - the bulk passes of the task store;
  - the grouping `reduce`s;
  - the list's forwarding loop.

Inputs the model takes as parameters:
- Instants are integers (milliseconds since the epoch), and the current instant is a parameter `now`.
- A store call that throws is an input (`fails`, or a `Failed` outcome).
- `window.confirm` is an input (`confirmed`).
- The clock reading a store stamps records with is the parameter `stamp`.
- An awaited call inside a component handler is split in two steps:
  - `Begin…` runs up to the `await` and returns the request sent.
  - `Finish…` runs from the `await` on, given how the call ended.

## Model

| member | source | states |
|---|---|---|
| TaskService.Find | src/services/api/taskService.js:13-17 | `getById` finds nothing exactly when no task has the Id; otherwise a stored task with that Id |
| TaskService.TaskStore.GetAll | src/services/api/taskService.js:8-11 | returns the stored list unchanged |
| TaskService.TaskStore.GetById | src/services/api/taskService.js:13-17 | returns `Find` of the stored list |
| TaskService.TaskStore.Create | src/services/api/taskService.js:19-29 | appends exactly one task built from the draft with the corrected next Id (`RecordIds.NextId`) and the stamp; keeps Ids unique |
| TaskService.CreateKeepsUniqueIds | src/services/api/taskService.js:21-27 | under the corrected Id rule, the new task's Id is held by no stored task, the Ids stay unique, `completedAt` is null and `createdAt` the stamp |
| TaskService.UpdateById | src/services/api/taskService.js:31-50 | `null` exactly for an unknown Id, which changes nothing; otherwise the first task of that Id is replaced by the merge and returned; Ids never change |
| TaskService.UpdateByIdPointwise | src/services/api/taskService.js:33-48 | with unique Ids, only the task of that Id changes, to the merge |
| TaskService.TaskStore.Update | src/services/api/taskService.js:31-50 | the store and the reply are those of `UpdateById`; Ids stay unique |
| TaskService.DeleteById | src/services/api/taskService.js:52-59 | an unknown Id changes nothing; a known one removes one task; the result is an order-preserving part of the list |
| TaskService.DeleteByIdFilters | src/services/api/taskService.js:54-57 | with unique Ids, `delete` is the filter that drops that Id |
| TaskService.TaskStore.Delete | src/services/api/taskService.js:52-59 | reports `true` exactly when the Id was stored; the store becomes `DeleteById`; Ids stay unique |
| TaskService.BulkUpdateById | src/services/api/taskService.js:61-83 | one `update` per id in turn; Ids never change; at most one record returned per id |
| TaskService.BulkUpdateReturnsPresent | src/services/api/taskService.js:65-79 | the returned records' Ids are exactly the listed ids that name a task, in list order |
| TaskService.BulkUpdatePointwise | src/services/api/taskService.js:65-79 | with unique Ids, every listed task is merged once and every other task is unchanged |
| TaskService.TaskStore.BulkUpdate | src/services/api/taskService.js:61-83 | the loop leaves the store and returns the records of `BulkUpdateById`; Ids stay unique |
| TaskService.BulkDeleteById | src/services/api/taskService.js:85-98 | reports at most one id per listed id |
| TaskService.BulkDeleteRemovesListed | src/services/api/taskService.js:89-95 | with unique Ids, exactly the listed tasks are removed and the rest keep their order |
| TaskService.BulkDeleteReportsRemoved | src/services/api/taskService.js:87-97 | the reported ids have no repeats and are exactly the listed ids that named a task |
| TaskService.TaskStore.BulkDelete | src/services/api/taskService.js:85-98 | the loop leaves the store and reports the ids of `BulkDeleteById`; Ids stay unique |
| Records.ApplyPatch | src/services/api/taskService.js:36-46 | supplied fields overwrite and the others stay; `completed: true` on an open task stamps `completedAt`; `completed: false` clears it; otherwise `completedAt` is kept |
| Records.ApplyPatchIdempotent | src/services/api/taskService.js:36-46 | applying the same patch again changes nothing, whatever the clock says then |
| Records.PatchKeepsConsistency | src/services/api/taskService.js:38-46 | a task whose `completedAt` is set exactly when it is completed stays so after any patch |
| Records.ApplyEmptyPatch | src/services/api/taskService.js:36 | an empty update leaves the task unchanged |
| RecordIds.EmptiedStoreRepeatsId | src/services/api/taskService.js:23 | after the store is emptied, every following create is given -Infinity |
| RecordIds.NegInfinityIdUnreadable | src/services/api/taskService.js:33 | `parseInt` of the -Infinity Id gives NaN, so no lookup finds such a record |
| RecordIds.NextId | src/services/api/categoryService.js:23 | the corrected Id rule: greater than every Id present; 1 for an empty store, otherwise one more than a present Id |
| CategoryService.FindCategory | src/services/api/categoryService.js:13-17 | nothing exactly when no category has the Id; otherwise a stored category with that Id |
| CategoryService.GetAllOrdered | src/services/api/categoryService.js:8-11 | `getAll` returns the stored categories, ordered by `order`, keeping storage order among equal `order`s |
| CategoryService.CategoryStore.GetAll | src/services/api/categoryService.js:8-11 | the sorted copy is `SortBy` of the stored list by `order` |
| CategoryService.CategoryStore.GetById | src/services/api/categoryService.js:13-17 | returns `FindCategory` of the stored list |
| CategoryService.CreateKeepsUniqueIds | src/services/api/categoryService.js:19-28 | under the corrected Id rule, the new Id is held by no category, the Ids stay unique, and `order` comes after the last position |
| CategoryService.CategoryStore.Create | src/services/api/categoryService.js:19-28 | appends one category with the corrected next Id (`RecordIds.NextId`) and `order` = length + 1 |
| CategoryService.UpdateCategoryById | src/services/api/categoryService.js:30-38 | `null` exactly for an unknown Id, which changes nothing; otherwise the merge replaces the category; Ids never change |
| CategoryService.UpdateCategoryPointwise | src/services/api/categoryService.js:32-36 | with unique Ids, only the category of that Id changes |
| CategoryService.CategoryStore.Update | src/services/api/categoryService.js:30-38 | the store and the reply are those of `UpdateCategoryById` |
| CategoryService.DeleteCategoryById | src/services/api/categoryService.js:40-47 | an unknown Id changes nothing; a known one removes one category |
| CategoryService.DeleteCategoryFilters | src/services/api/categoryService.js:42-45 | with unique Ids, `delete` is the filter that drops that Id |
| CategoryService.CategoryStore.Delete | src/services/api/categoryService.js:40-47 | reports `true` exactly when the Id was stored; Ids stay unique |
| Sorting.SortInPlace | src/services/api/categoryService.js:10 | the in-place stable sort leaves the array equal to `SortBy` of its old contents |
| Sorting.SortBySorted | src/components/pages/UpcomingView.jsx:34 | the sort's result is ordered by the key |
| Sorting.SortByPermutation | src/components/pages/UpcomingView.jsx:34 | the sort's result is a permutation of its input |
| Sorting.SortByStable | src/components/pages/ArchiveView.jsx:36-41 | elements with equal keys keep their relative order |
| TaskFilters.FilteredTasks | src/hooks/useTaskFilters.js:13-64 | no list gives `[]`; otherwise an order-preserving part of the list holding exactly the tasks that pass all five tests |
| TaskFilters.KeptIff | src/hooks/useTaskFilters.js:16-62 | a task is kept exactly when each test is switched off or holds, with each date range read as its window of instants |
| TaskFilters.RangeIsWindow | src/hooks/useTaskFilters.js:42-56 | each date-range test accepts exactly its window: today, tomorrow, the Sunday-to-Saturday week, before today |
| TaskFilters.DefaultKeepsAll | src/hooks/useTaskFilters.js:5-11 | under the initial (and cleared) filters every task is kept, in order |
| TaskFilters.FilteredAppend | src/hooks/useTaskFilters.js:16 | each task is decided on its own: filtering a concatenation filters each part |
| TaskFilters.HidingCompleted | src/hooks/useTaskFilters.js:33-35 | hiding completed tasks keeps an order-preserving part of the shown list, with no completed task |
| TaskFilters.MergeOnlySupplied | src/hooks/useTaskFilters.js:66-68 | `updateFilters` changes only the keys supplied, and merging again changes nothing more |
| TaskFilters.FilterState.UpdateFilters | src/hooks/useTaskFilters.js:66-68 | the state becomes the merge of the old filters and the patch |
| TaskFilters.FilterState.ClearFilters | src/hooks/useTaskFilters.js:70-78 | the state returns to the defaults |
| Reconcile.ReplaceMembers | src/components/pages/Dashboard.jsx:45-49 | replacing by Id brings in the new record only when its Id was listed, and drops only records of that Id |
| Reconcile.ReplaceKeepsIds | src/components/pages/Dashboard.jsx:45-49 | replacing by Id keeps the list's Ids and their order |
| Reconcile.ReplaceThenRemove | src/components/pages/TodayView.jsx:46-59 | replacing and then removing an Id is removing it |
| Reconcile.RemoveById | src/components/pages/Dashboard.jsx:51-53 | an order-preserving part of the list holding exactly the records of other Ids |
| Reconcile.RemoveOne | src/components/pages/Dashboard.jsx:51-53 | with unique Ids, removing a listed Id removes one record |
| TaskCounts.OpenPlusCompleted | src/components/pages/Dashboard.jsx:80-92 | the Active and Completed counters add up to the Total |
| TaskCounts.CompletedCountBounds | src/components/organisms/Sidebar.jsx:31-32 | the completed count is the total exactly when all tasks are completed, and 0 exactly when none is |
| TaskCounts.CompletionRate | src/components/pages/TodayView.jsx:69-71 | 0 for no task; between 0 and 100; 100 exactly when every task is completed |
| Dashboard.AddCounts | src/components/pages/Dashboard.jsx:41-43 | prepending a task raises the total and the counter of its state by one |
| Dashboard.DeleteCounts | src/components/pages/Dashboard.jsx:51-53 | deleting a listed Id lowers the total and the counter of its state by one |
| Dashboard.DashboardPage.LoadData | src/components/pages/Dashboard.jsx:22-39 | both reads must succeed, and then both lists are kept; otherwise the lists stay and the error is set |
| Dashboard.DashboardPage.TaskAdded | src/components/pages/Dashboard.jsx:41-43 | the task is prepended |
| Dashboard.DashboardPage.TaskUpdated | src/components/pages/Dashboard.jsx:45-49 | the list becomes `ReplaceById` of the old list |
| Dashboard.DashboardPage.TaskDeleted | src/components/pages/Dashboard.jsx:51-53 | the list becomes `RemoveById` of the old list |
| TodayView.Loaded | src/components/pages/TodayView.jsx:27-29 | an order-preserving part of all tasks holding exactly those due today |
| TodayView.LoadedWindow | src/components/pages/TodayView.jsx:27-29 | "due today" is a due instant in today's half-open day |
| TodayView.AddedIff | src/components/pages/TodayView.jsx:39-44 | a task is prepended exactly when it is due today; the page stays all due today |
| TodayView.UpdateNeverAdds | src/components/pages/TodayView.jsx:46-59 | an update brings in only the updated record, and only for a listed Id |
| TodayView.UpdateMovedAway | src/components/pages/TodayView.jsx:50-55 | a task moved to another day acts as a delete |
| TodayView.UpdateKeepsDueToday | src/components/pages/TodayView.jsx:50-55 | a task with a due date stays only when due today; one whose due date was cleared stays although not due today |
| TodayView.UpdateUnknown | src/components/pages/TodayView.jsx:46-59 | an update of an unlisted Id changes nothing |
| TodayView.TodayPage.LoadData | src/components/pages/TodayView.jsx:21-37 | a successful read sets the list to `Loaded`; a failed one keeps it and sets the error |
| TodayView.TodayPage.TaskAdded | src/components/pages/TodayView.jsx:39-44 | the list becomes `Added` of the old list |
| TodayView.TodayPage.TaskUpdated | src/components/pages/TodayView.jsx:46-59 | the list becomes `Updated` of the old list |
| TodayView.TodayPage.TaskDeleted | src/components/pages/TodayView.jsx:61-63 | the list becomes `RemoveById` of the old list |
| UpcomingView.Loaded | src/components/pages/UpcomingView.jsx:26-34 | holds exactly the tasks due after the start of tomorrow |
| UpcomingView.LoadedValid | src/components/pages/UpcomingView.jsx:26-34 | the list is all upcoming, sorted by due instant, a permutation of the filter, stable among equal due instants |
| UpcomingView.SortedIsAscending | src/components/pages/UpcomingView.jsx:34 | a sorted list has ascending due instants |
| UpcomingView.QualifiesIsLater | src/components/pages/UpcomingView.jsx:28-31 | an upcoming task is due after now and not today |
| UpcomingView.AddKeepsValid | src/components/pages/UpcomingView.jsx:44-56 | adding keeps the page sorted and upcoming; it adds exactly the task when it qualifies, and nothing otherwise |
| UpcomingView.UpdateKeepsValid | src/components/pages/UpcomingView.jsx:58-79 | updating keeps the page sorted and upcoming, and brings in only the updated record of a listed Id |
| UpcomingView.UpdateDisqualified | src/components/pages/UpcomingView.jsx:66-74 | a task that no longer qualifies acts as a delete |
| UpcomingView.DeleteKeepsValid | src/components/pages/UpcomingView.jsx:81-83 | deleting keeps the page sorted and upcoming |
| UpcomingView.GroupedTasks | src/components/pages/UpcomingView.jsx:89-96 | one group per due day present; each group is the tasks of that day in list order; each task is in its own day's group and in no other |
| UpcomingView.UpcomingPage.LoadData | src/components/pages/UpcomingView.jsx:20-42 | a successful read sets the list to `Loaded`; a failed one keeps it and sets the error |
| UpcomingView.UpcomingPage.TaskAdded | src/components/pages/UpcomingView.jsx:44-56 | the list becomes `Added` of the old list |
| UpcomingView.UpcomingPage.TaskUpdated | src/components/pages/UpcomingView.jsx:58-79 | the list becomes `Updated` of the old list |
| UpcomingView.UpcomingPage.TaskDeleted | src/components/pages/UpcomingView.jsx:81-83 | the list becomes `RemoveById` of the old list |
| ArchiveView.CompareIsRank | src/components/pages/ArchiveView.jsx:36-41 | the comparator's sign agrees with the rank order: newest completion first, tasks without `completedAt` last |
| ArchiveView.Loaded | src/components/pages/ArchiveView.jsx:33-41 | holds exactly the completed tasks |
| ArchiveView.LoadedValid | src/components/pages/ArchiveView.jsx:33-41 | the list is completed-only, in comparator order, a permutation of the filter |
| ArchiveView.SortedIsNewestFirst | src/components/pages/ArchiveView.jsx:36-41 | in a sorted list, completion instants never increase |
| ArchiveView.UpdateKeepsValid | src/components/pages/ArchiveView.jsx:52-71 | updating keeps the page valid and brings in nothing new; a completed update keeps the length; a reopened task acts as a delete |
| ArchiveView.DeleteKeepsValid | src/components/pages/ArchiveView.jsx:73-75 | deleting keeps the page valid |
| ArchiveView.GroupedTasks | src/components/pages/ArchiveView.jsx:81-90 | one group per completion day; each task with a completion instant is in that day's group and only there |
| ArchiveView.ArchivePage.LoadData | src/components/pages/ArchiveView.jsx:23-50 | both reads must succeed for the list to become `Loaded` |
| ArchiveView.ArchivePage.TaskUpdated | src/components/pages/ArchiveView.jsx:52-71 | the list becomes `Updated` of the old list |
| ArchiveView.ArchivePage.TaskDeleted | src/components/pages/ArchiveView.jsx:73-75 | the list becomes `RemoveById` of the old list |
| ArchiveView.BarFilters | src/components/pages/ArchiveView.jsx:125-130 | the bar is handed the hook's state with "Show completed" on, and differs from it in that field only |
| ArchiveView.UntickEmptiesPage | src/components/pages/ArchiveView.jsx:17-126 | as written, unticking "Show completed" from the defaults empties the page of completed tasks, while the box still shows ticked and Clear stays hidden; the next date-range change ticks it back |
| ArchiveView.ArchiveList | src/components/pages/ArchiveView.jsx:17 | the corrected list: an ordered subsequence of the tasks holding exactly those that pass the hook's filters with "Show completed" on |
| ArchiveView.BarMatchesArchiveList | src/components/pages/ArchiveView.jsx:125-130 | with the corrected list, Clear shows exactly when clearing changes the filters the list uses, the box cannot change the list, each other handler changes only its own field of those filters, and with Clear hidden the list is the search matches |
| CategoryView.Loaded | src/components/pages/CategoryView.jsx:37-46 | with a route parameter, exactly the tasks of that category, in order; without one, all tasks |
| CategoryView.AddKeepsValid | src/components/pages/CategoryView.jsx:54-58 | a task is prepended exactly when there is no route parameter or its category matches; the page stays valid |
| CategoryView.UpdateKeepsValid | src/components/pages/CategoryView.jsx:60-73 | the page stays valid and brings in nothing new; a task moved out of the route's category acts as a delete |
| CategoryView.TitleOfCategoryRoute | src/components/pages/CategoryView.jsx:38 | the route built from a stored category's Id names that category, and the title is "<name> Tasks" |
| CategoryView.TitleOtherwise | src/components/pages/CategoryView.jsx:79-84 | the title is "All Categories" when the route is absent, does not parse, or names no category |
| CategoryView.GroupsAreCategories | src/components/pages/CategoryView.jsx:93-108 | every group is a listed category's, under its Id, holding its tasks, never empty; every category with a task has a group |
| CategoryView.GroupOfCategory | src/components/pages/CategoryView.jsx:98-106 | with unique category Ids, a category has a group exactly when some task names it, and the group is its tasks |
| CategoryView.OrphanInNoGroup | src/components/pages/CategoryView.jsx:99 | a task whose category string names no category is in no group |
| CategoryView.CategoryPage.LoadData | src/components/pages/CategoryView.jsx:25-52 | both reads must succeed; then the list becomes `Loaded` and the current category `Current` |
| CategoryView.CategoryPage.TaskAdded | src/components/pages/CategoryView.jsx:54-58 | the list becomes `Added` of the old list |
| CategoryView.CategoryPage.TaskUpdated | src/components/pages/CategoryView.jsx:60-73 | the list becomes `Updated` of the old list |
| CategoryView.CategoryPage.TaskDeleted | src/components/pages/CategoryView.jsx:75-77 | the list becomes `RemoveById` of the old list |
| Sidebar.TodayCountIsTodayPage | src/components/organisms/Sidebar.jsx:35-40 | the Today counter equals the length of the Today page's list |
| Sidebar.UpcomingCountCoversPage | src/components/organisms/Sidebar.jsx:42-47 | the Upcoming counter is at least the length of the Upcoming page's list |
| Sidebar.LaterTodayCountsTwice | src/components/organisms/Sidebar.jsx:35-47 | a task due later today is counted both as today and as upcoming, and the Upcoming page omits it |
| Sidebar.Badge | src/components/organisms/Sidebar.jsx:148 | a category shows a badge exactly when a task names it, and the badge is positive |
| Sidebar.BadgeIsGroupSize | src/components/organisms/Sidebar.jsx:170-174 | the badge shows exactly when the Category page has a group for the category, and equals that group's size |
| Sidebar.SidebarState.LoadData | src/components/organisms/Sidebar.jsx:14-29 | both reads must succeed for the lists to change; a failure keeps both |
| TaskCard.DueClassesAgree | src/components/molecules/TaskCard.jsx:59-75 | the colour and the text classify a due date alike, by window: before today, today, from tomorrow |
| TaskCard.EarlierTodayIsToday | src/components/molecules/TaskCard.jsx:59-75 | a task due earlier today is past yet reads "Today" in the warning colour |
| TaskCard.PriorityVariantRange | src/components/molecules/TaskCard.jsx:77-84 | the variant is one of four names: the priority for a known one, "default" otherwise |
| TaskCard.TaskCardState.BeginToggle | src/components/molecules/TaskCard.jsx:24-31 | a toggle in flight sends nothing; otherwise `completed: !task.completed` is sent and the flag raised |
| TaskCard.TaskCardState.FinishToggle | src/components/molecules/TaskCard.jsx:29-40 | as written: whatever `update` resolved with, `null` included, is forwarded; the flag is lowered |
| TaskCard.TaskCardState.FinishToggleChecked | src/components/molecules/TaskCard.jsx:29-40 | corrected: only a record is forwarded; the flag is lowered |
| TaskCard.ToggleReplyMatches | src/components/molecules/TaskCard.jsx:29-33 | for a stored task, the reply carries its Id and the requested completion |
| TaskCard.StaleCardGetsNull | src/components/molecules/TaskCard.jsx:29-33 | after a bulk delete of a task, toggling its card gets `null` from the store |
| TaskCard.TaskCardState.BeginDelete | src/components/molecules/TaskCard.jsx:44-50 | a delete in flight sends nothing; otherwise the card's Id is sent |
| TaskCard.TaskCardState.FinishDelete | src/components/molecules/TaskCard.jsx:48-56 | once the call resolves the Id is forwarded; a failed call forwards nothing; the flag is lowered |
| TaskList.Select | src/components/organisms/TaskList.jsx:24-30 | selecting appends the Id; deselecting removes every occurrence and keeps the others in order |
| TaskList.SelectThenDeselect | src/components/organisms/TaskList.jsx:24-30 | deselecting right after selecting an unselected Id restores the selection |
| TaskList.ScreenOf | src/components/organisms/TaskList.jsx:53-55 | the cards show exactly when not loading, with no error and a non-empty list |
| TaskList.TaskListState.SelectionChange | src/components/organisms/TaskList.jsx:24-30 | the selection becomes `Select` of the old one |
| TaskList.TaskListState.ClearSelection | src/components/organisms/TaskList.jsx:32-34 | the selection is emptied |
| TaskList.TaskListState.TaskEdit | src/components/organisms/TaskList.jsx:36-38 | the editor opens on the task |
| TaskList.TaskListState.TaskEditorClose | src/components/organisms/TaskList.jsx:40-42 | the editor closes |
| TaskList.TaskListState.TaskSaved | src/components/organisms/TaskList.jsx:44-47 | the saved task is forwarded and the editor closes |
| TaskList.BulkTasksUpdated | src/components/organisms/TaskList.jsx:49-51 | the loop hands every record to the page's handler in order |
| TaskList.ForwardReplacementsKeepIds | src/components/organisms/TaskList.jsx:49-51 | forwarding records to the All Tasks handler keeps the page's Ids; an empty list changes nothing |
| BulkActions.Renders | src/components/molecules/BulkActions.jsx:46 | the bar renders exactly over a non-empty selection |
| BulkActions.ShownBarRenders | src/components/organisms/TaskList.jsx:60 | a bar the list shows is never the empty rendering |
| BulkActions.CountLabelReadsCount | src/components/molecules/BulkActions.jsx:19-23 | the message reads "task" exactly when the selection has one Id |
| BulkActions.BulkUpdateSetsCompletion | src/components/molecules/BulkActions.jsx:16 | every record a bulk completion returns has the requested completion and a listed Id |
| BulkActions.CompletionReachesPage | src/components/molecules/BulkActions.jsx:16-17 | the forwarded records are one per selected stored Id, each with the requested completion, and keep the page's Ids |
| BulkActions.BulkComplete | src/components/molecules/BulkActions.jsx:14-27 | on success the store is bulk-updated, the records forwarded, the selection cleared and the notice counts the selection; on failure nothing changes |
| BulkActions.BulkDelete | src/components/molecules/BulkActions.jsx:29-44 | declined: no call; success: the store drops the selection, `[]` is forwarded, the selection is cleared; failure: nothing changes |
| BulkActions.DeleteLeavesPage | src/components/molecules/BulkActions.jsx:35-37 | after a bulk delete the page keeps a selected task that the store no longer holds |
| PriorityFilter.Toggle | src/components/molecules/PriorityFilter.jsx:16-21 | the toggled priority's membership flips, other counts stay; absent: appended at the end; present: an order-preserving part without it |
| PriorityFilter.ToggleTwiceAbsent | src/components/molecules/PriorityFilter.jsx:16-21 | toggling an absent priority twice restores the selection |
| PriorityFilter.ToggleFlipsOneBadge | src/components/molecules/PriorityFilter.jsx:41 | a click flips the clicked badge's highlight and no other |
| FilterBar.CategoryChoice | src/components/molecules/FilterBar.jsx:15-20 | at most one category; none exactly for "all"; otherwise the chosen Id |
| FilterBar.HandlersChangeOneField | src/components/molecules/FilterBar.jsx:15-28 | when the bar is handed the hook's own record, as on All Tasks, each handler's record merged into that state changes only its own field; the Archive page hands it another record (see Findings) |
| FilterBar.CategorySelectShowsChoice | src/components/molecules/FilterBar.jsx:46 | the select shows back the chosen category |
| FilterBar.ActiveIffNotDefault | src/components/molecules/FilterBar.jsx:30-34 | a filter is active exactly when the record, search aside, differs from the defaults |
| FilterBar.ShowsClear | src/components/molecules/FilterBar.jsx:30-34 | the Clear button shows exactly when the `filters` prop, search aside, differs from the record `clearFilters` restores; on All Tasks that prop is the hook's state, on Archive it is not (see Findings) |
| FilterBar.InactiveKeepsSearchMatches | src/components/molecules/FilterBar.jsx:30-34 | with no active filter on a record, the tasks filtered by that record are exactly the search matches; this is the page's list where the bar is handed the hook's own record, as on All Tasks |
| TaskEditorModal.WithInput | src/components/organisms/TaskEditorModal.jsx:61-62 | the typed field takes the value and every other field keeps its own |
| TaskEditorModal.ClearedError | src/components/organisms/TaskEditorModal.jsx:63-65 | only the typed field's error is cleared; the keys and the other errors stay |
| TaskEditorModal.ValidationErrors | src/components/organisms/TaskEditorModal.jsx:68-81 | a title error exactly for a blank trimmed title, a category error exactly for no category, no other key |
| TaskEditorModal.ValidIff | src/components/organisms/TaskEditorModal.jsx:68-81 | the form passes exactly when the title has a non-whitespace character and a category is set; the blank form never passes |
| TaskEditorModal.DraftOf | src/components/organisms/TaskEditorModal.jsx:90-94 | a create sends the trimmed title, `completed: false`, and the other fields as typed |
| TaskEditorModal.PatchOf | src/components/organisms/TaskEditorModal.jsx:90-94 | an update sends the four fields with the title trimmed and no `completed` key |
| TaskEditorModal.RequestFor | src/components/organisms/TaskEditorModal.jsx:97-106 | `create` exactly for a new task; `update` of the task's Id otherwise |
| TaskEditorModal.SavedEditIsForm | src/components/organisms/TaskEditorModal.jsx:97-99 | a saved edit stores exactly the form's fields and keeps Id, completion and stamps; an unedited save only trims the title |
| TaskEditorModal.EditorState.Open | src/components/organisms/TaskEditorModal.jsx:29-49 | opening resets the form to the task's or the blank one and clears the errors |
| TaskEditorModal.EditorState.InputChange | src/components/organisms/TaskEditorModal.jsx:61-66 | only the typed field changes, and only its error is cleared |
| TaskEditorModal.EditorState.ValidateForm | src/components/organisms/TaskEditorModal.jsx:68-81 | the errors become `ValidationErrors` and the result is true exactly when there is none |
| TaskEditorModal.EditorState.BeginSubmit | src/components/organisms/TaskEditorModal.jsx:83-106 | an invalid form sends nothing; otherwise loading is raised and the request sent |
| TaskEditorModal.EditorState.FinishSubmit | src/components/organisms/TaskEditorModal.jsx:108-113 | the reply is forwarded when the call resolved; loading is lowered |
| TaskEditorModal.EditorState.Close | src/components/organisms/TaskEditorModal.jsx:116-120 | close is asked for exactly when no save is in flight |
| QuickAddTask.QuickDraft | src/components/molecules/QuickAddTask.jsx:21-27 | the trimmed title, open, "medium", no due date, category "1" |
| QuickAddTask.QuickDraftIsEditorDraft | src/components/molecules/QuickAddTask.jsx:21-27 | a quick add sends what the editor sends for a new task with only its title typed |
| QuickAddTask.QuickAddedTask | src/components/molecules/QuickAddTask.jsx:17-27 | the stored task has a fresh Id, is open with no due date, and has a non-empty trimmed title |
| QuickAddTask.QuickAddState.BeginSubmit | src/components/molecules/QuickAddTask.jsx:15-27 | a blank or whitespace-only title sends nothing; otherwise loading is raised and the draft sent |
| QuickAddTask.QuickAddState.FinishSubmit | src/components/molecules/QuickAddTask.jsx:29-37 | success empties the title, collapses and forwards the task; failure keeps both; loading is lowered |
| QuickAddTask.QuickAddState.Cancel | src/components/molecules/QuickAddTask.jsx:40-43 | the title is emptied and the form collapses |
| Grouping.GroupBy | src/components/pages/UpcomingView.jsx:89-96 | the `reduce` loop leaves, for each key present, the elements with that key in list order |
| Grouping.ExactlyOneGroup | src/components/pages/ArchiveView.jsx:81-90 | an element with a key is in that key's group and in no other |
| Dates.TodayIff | src/hooks/useTaskFilters.js:43-44 | `isToday` holds exactly in the half-open day that contains now |
| Dates.TomorrowIff | src/hooks/useTaskFilters.js:46-47 | `isTomorrow` holds exactly in the following day |
| Dates.OverdueIff | src/hooks/useTaskFilters.js:54-55 | past and not today is exactly before the start of today |
| Text.TrimEmptyIff | src/components/molecules/QuickAddTask.jsx:17 | `trim()` gives the empty string exactly for whitespace-only text |
| Text.ParseIntOfIntToString | src/components/pages/CategoryView.jsx:38 | `parseInt` reads back an Id written out as a string |
| Text.ParseIntHex | src/components/pages/CategoryView.jsx:38 | with no radix, `parseInt` reads a `0x` route as hexadecimal |
| Text.ParseIntSignedHex | src/components/pages/CategoryView.jsx:38 | a minus sign may come before the `0x`/`0X` marker, and negates the hexadecimal value |
| Text.ParseIntBareHexMarker | src/components/pages/CategoryView.jsx:38 | `0x` with no hexadecimal digit after it is NaN |
| RecordIds.MaxAsWritten | src/services/api/taskService.js:23 | `Math.max` is at least every Id and is one of them, or -Infinity |
| RecordIds.NextIdAsWritten | src/services/api/taskService.js:23 | as written: -Infinity exactly when no Id is a number; otherwise above every numeric Id (see Findings) |
| RecordIds.NextIdAgreesWithSource | src/services/api/taskService.js:23 | where the source gives a number, the corrected rule gives the same one |
| Records.ApplyCategoryPatch | src/services/api/categoryService.js:35 | the supplied category fields overwrite, the others and the Id stay |
| Sorting.SortedCopy | src/services/api/categoryService.js:10 | `[...categories].sort(...)`: the copy, sorted in an array, is `SortBy` of the list, and the list itself is untouched |
| Text.ToLower | src/hooks/useTaskFilters.js:18 | same length; each ASCII, Latin-1 and basic Cyrillic capital lowered, every other character kept; none of those capitals left |
| Text.ToLowerIdempotent | src/hooks/useTaskFilters.js:18 | lowering twice is lowering once |
| Text.Contains | src/hooks/useTaskFilters.js:18 | `includes` holds exactly when the needle occurs at some position |
| Text.ContainsEmpty | src/hooks/useTaskFilters.js:18 | the empty search occurs in every title |
| Text.Trim | src/components/molecules/QuickAddTask.jsx:17 | the result is no longer than the text and starts and ends with non-whitespace |
| Dates.StartOfDay | src/hooks/useTaskFilters.js:43-44 | the start of the day containing an instant |
| Dates.StartOfTomorrow | src/hooks/useTaskFilters.js:46-47 | a day boundary after now, on the following day |
| Dates.StartOfWeek | src/hooks/useTaskFilters.js:49-51 | a Sunday day boundary within the seven days ending at now |
| Dates.EndOfWeek | src/hooks/useTaskFilters.js:49-51 | the last instant of that Saturday, seven days less one millisecond after the week's start |
| Dates.TodayInWeek | src/hooks/useTaskFilters.js:49-51 | a task due today is in this week |
| TaskFilters.MergeNothing | src/hooks/useTaskFilters.js:66-68 | an empty update changes no filter |
| Reconcile.ReplacePointwise | src/components/pages/Dashboard.jsx:45-49 | `map` replaces each record of the Id by the new one and keeps every other |
| Reconcile.ReplaceUnknown | src/components/pages/Dashboard.jsx:45-49 | an update of an unlisted Id leaves the list unchanged |
| Reconcile.RemoveUnknown | src/components/pages/Dashboard.jsx:51-53 | deleting an unlisted Id leaves the list unchanged |
| TaskCounts.CompletedCount | src/components/pages/Dashboard.jsx:80-92 | the completed count never exceeds the total |
| Sidebar.TodayCount | src/components/organisms/Sidebar.jsx:35-40 | the Today counter never exceeds the number of tasks |
| Sidebar.UpcomingCount | src/components/organisms/Sidebar.jsx:42-47 | the Upcoming counter never exceeds the number of tasks |
| PriorityFilter.ToggleTwicePresent | src/components/molecules/PriorityFilter.jsx:16-21 | toggling a selected priority twice moves it to the end, once |
| FilterBar.WholePatch | src/components/molecules/FilterBar.jsx:19-27 | a handler hands over a whole filter record, so the hook's merge yields it whatever its state was |
| BulkActions.Noun | src/components/molecules/BulkActions.jsx:20 | "task" exactly for one, "tasks" otherwise |
| QuickAddTask.QuickAddState.Expand | src/components/molecules/QuickAddTask.jsx:48 | the form opens and keeps the title |
| QuickAddTask.QuickAddState.TitleChange | src/components/molecules/QuickAddTask.jsx:73 | the title becomes what was typed, nothing else changes |

## Left out

- Asynchrony: delays, `Promise.all` and interleaving are not modelled. Store calls run to completion, and a component's awaited call is split into a `Begin…` step and a `Finish…` step.
- Dates:
  - Date parsing, time zones and format strings are not modelled. Instants are integers, days are whole multiples of 24 hours from the epoch, and weeks start on Sunday.
  - The "yyyy-MM-dd" group keys are day numbers.
  - Displayed date strings ("MMM d", "EEEE, MMMM d") are left out.
- Clock stamps: the ISO stamps `createdAt` and `completedAt` are the integer `stamp`.
- Mock data: the initial stores are any lists with unique Ids.
- Rendering, animation, toasts other than the bulk bar's notices, and routing are left out. The route parameter of the Category page is an input.
- `console.error` logging is left out. A failed load is modelled only by its effect on state.
- `handleSearch` is not modelled. On every page it only forwards to `updateFilters`, which `TaskFilters.FilterState.UpdateFilters` models.
- The page description in CategoryView (src/components/pages/CategoryView.jsx:86-91) is left out. It is display text.
- Group display order: the order of `Object.entries` over groups is an engine detail, so the groups are a map with no order.
- Ids are integers: `parseInt` of an Id the pages pass is that Id. Only the Category page's route string goes through `Text.ParseInt`.
- A form date field is an optional instant: its empty string is `None`.
- TaskService.TaskStore.Create and CategoryService.CategoryStore.Create use the corrected Id rule `RecordIds.NextId`. As written, an emptied store gives -Infinity to every new record, so Ids repeat there (see Findings). Their unique-Id promises hold for the corrected rule only.
- Text.ToLower maps only the capitals whose lower case is a single character at a fixed offset: ASCII, Latin-1 and basic Cyrillic. Other Unicode case mappings are not modelled: Latin Extended, Greek with its final sigma, and `İ`, whose lower case is two characters. So the search filter can miss a title that differs from the search only in such letters.
- Text.ParseInt reads decimal, and hexadecimal after `0x`/`0X`, as `parseInt` with no radix does. Its result is an unbounded integer: precision loss past 2^53 is not modelled.
- TaskService.TaskStore.BulkUpdate uses one clock reading, `stamp`, for every record it completes, where the source reads the clock once per record.
- TaskCounts.CompletionRate is computed with exact reals, not floating point.
- UpcomingView.GroupedTasks keys groups by day number rather than by the "yyyy-MM-dd" string. The same holds for ArchiveView.GroupedTasks.
- BulkActions.BulkComplete and BulkActions.BulkDelete model a store call that throws as one that changes nothing. The in-memory store never throws.
- TaskEditorModal.EditorState.Open models the category reload as a result passed in. A failed reload keeps the old categories.
- Category creation's `order` is `length + 1`. Two categories can share an `order` after deletes. `GetAllOrdered` covers that case through the stable-sort property.

## Findings

| source | as written | input that shows it | evidently intended | confidence | as-written member | corrected member |
|---|---|---|---|---|---|---|
| src/services/api/taskService.js:23 (also src/services/api/categoryService.js:23) | `Math.max(...ids) + 1` is -Infinity for an empty store, and every later create gets -Infinity too | delete every task, then create two tasks: both get Id -Infinity, and `parseInt` of it is NaN, so neither can be updated or deleted | the first Id of an empty store is 1, and each later Id is one more than the largest | not executed | RecordIds.EmptiedStoreRepeatsId | RecordIds.NextId |
| src/components/molecules/TaskCard.jsx:29-33 | the toggle forwards whatever `update` returned, `null` included, to `onTaskUpdated`. The All Tasks, Today, Upcoming and Category pages then read `.Id` of it inside their state updater. The Archive page first reads `.completed` (ArchiveView.jsx:53); that throws inside the card's `try`, so the card shows its error toast. The editor's save forwards the same `null` (TaskEditorModal.jsx:98, 108), which `TaskEditorModal.EditorState.FinishSubmit` models as written | select a task and bulk-delete it; the bar forwards `[]`, so its card stays. Then click the card's checkbox: `update` returns `null`. On the All Tasks page the updater fails on `null.Id`; on the Archive page an error toast shows although nothing was updated | forward only a returned record; treat `null` as a failed update | not executed | TaskCard.StaleCardGetsNull | TaskCard.TaskCardState.FinishToggleChecked |
| src/components/pages/ArchiveView.jsx:126 | the page filters its completed tasks with the hook's state but hands the bar `{ ...filters, showCompleted: true }`, and the bar builds every change from that record | on the Archive page untick "Show completed": the state's flag turns false, so every completed task is hidden and the page is empty, yet the box still shows ticked and Clear is hidden; picking a date range then ticks the flag back | the bar shows the filters the list uses: the archive list is filtered with "Show completed" forced on, as the prop is | not executed | ArchiveView.UntickEmptiesPage | ArchiveView.BarMatchesArchiveList |
