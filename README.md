# todopro in Dafny

A model of the core of todopro, a single-user, browser-local task manager,
with proofs about it. The model covers:

- **The store** (`TodoStore`, from `src/store/todoStore.js`). It holds the
  lists, the todos, the active list, the undo and redo stacks, the settings
  and the daily statistics. It is the class `TodoStore.Store`. Each of its
  methods reassigns the fields the way the matching action's `set` does, with
  one exception: `Undo` of a delete entry without a snapshot uses the
  corrected revert described under "## Findings". The
  new field values are built by pure functions: `NewTodo`, `Patched`,
  `Toggled`, `WithoutId`, `StatsAfterToggle`, `Reverted` and `Replayed`. The
  lemmas about the store are stated on those functions.
- **The application component** (`App`, from `src/App.js`). It covers:
  - the derived task view: filter by list, completion and search text, then a
    stable sort with open todos first and then by priority;
  - the drag-and-drop reorder, an array method that shifts the elements in
    place, followed by reprioritising by thirds of position;
  - the guards of the two add forms;
  - the reset;
  - the sidebar's grouping of lists.

  The handlers are methods of `App.AppView`, which drives a `Store`.
- **A task row** (`TodoItem`, from `src/components/TodoItem.js`). It covers
  the time-spent text, the start/stop time tracker (the class
  `TodoItem.TimeTracker`) and the calls the row makes into the store.
- **The progress panel** (`Statistics`, from
  `src/components/Statistics.js`). It covers completed tasks, the completion
  rate, the tasks completed today, the total time and its text.

The JavaScript built-ins these rely on are in `Js`, on unbounded integers and
`seq<char>` strings:

- `trim` (the white space it removes: ASCII, NBSP and BOM);
- ASCII `toLowerCase`;
- `includes`;
- the decimal text of an integer;
- the truncating `%`;
- `Math.round(n / d)`, written as the integer `(2n + d) div 2d`.

The module `Durations` holds the hours and minutes arithmetic that both
formatters share. It also holds a reader for the "<h>h <m>m" text, which is
what the formatters are checked against. `Seqs` holds a generic `filter`
with its laws.

The clock and the calendar are parameters:

- `id` is the `Date.now()` that names a new todo or list;
- `now` is the ISO time string of the moment, or the millisecond clock in the
  time tracker;
- `today` and `yesterday` are the 'yyyy-MM-dd' strings date-fns prints;
- `isToday` is date-fns `isToday`.

The model follows the code, including these behaviours:

- `deleteTodo` of an id no todo has still pushes a delete entry, whose
  snapshot is `None`. It is not a no-op.
- `toggleTodo` of an unknown id leaves the todos alone. It still rolls the
  statistics over and sets `lastCompleted` to today.
- New actions never clear the redo stack.
- Redoing a delete entry without a snapshot throws inside `set`, so the store
  does not change. In the source the undo of that entry has already put
  `undefined` into the todos, so the filter callback runs at least once and
  reads `lastAction.todo.id` of `undefined`. `Store.Redo` reports this as
  `threw`.
- The drag indices come from the drag-and-drop library, which takes them
  from the sorted, filtered view. `handleDragEnd` applies them to the whole
  todo array anyway, and the model does the same.

## Model

| member | source | states |
|---|---|---|
| TodoStore.Store.constructor | src/store/todoStore.js:8-24 | The initial state: the single default list "My Tasks" with id 1, no todos, active list 1, empty stacks, the default settings and zeroed statistics. |
| TodoStore.Store.AddList | src/store/todoStore.js:26-36 | Appends one list with the fresh id and the given name, icon and flags; every other field is unchanged. |
| TodoStore.NewTodo | src/store/todoStore.js:39-46 | Field by field: id, createdAt, completed=false, timeSpent=0 and subtasks=[] unless the caller supplies them, and the caller's text, list and priority. |
| TodoStore.Store.AddTodo | src/store/todoStore.js:38-51 | Appends exactly the new todo at the end and pushes an add entry carrying it; the redo stack and everything else are unchanged. |
| TodoStore.Find | src/store/todoStore.js:55 | `None` exactly when no todo has the id; otherwise a todo with the id that no earlier todo's id matches. |
| TodoStore.FindFirst | src/store/todoStore.js:55 | The todo at the first index carrying an id is the one `find` returns. |
| TodoStore.Toggled | src/store/todoStore.js:70-92 | Same length; todos with other ids are unchanged; if the found todo is open, every todo with the id becomes completed at `now`, otherwise each becomes open with no completion time. |
| TodoStore.ToggleConsistent | src/store/todoStore.js:76-92 | Toggling keeps "completed exactly when there is a completion time". |
| TodoStore.ToggleTwice | src/store/todoStore.js:70-92 | Completing a todo and toggling it again gives back the todos as they were. |
| TodoStore.StatsAfterToggle | src/store/todoStore.js:65-96 | `lastCompleted` becomes today; a new day resets the count and the ids; a completion is counted and its id appended only when the id is not counted yet; the streak grows only after a completion yesterday and is 1 otherwise; reopening leaves the streak, count and ids alone; the count stays equal to the number of distinct ids. |
| TodoStore.SameDayCompletionRestartsStreak | src/store/todoStore.js:73-83 | A second completion on the same day sets the streak to 1. |
| TodoStore.CompletionCountScenario | src/store/todoStore.js:53-99 | Completing two different todos of a fresh store on one day counts 1 and then 2. |
| TodoStore.Store.ToggleTodo | src/store/todoStore.js:53-99 | The new todos are `Toggled` and the new statistics `StatsAfterToggle` of the old state, also for an unknown id; the synced-statistics invariant is preserved; the stacks, lists and settings are unchanged. |
| TodoStore.MergeLaws | src/store/todoStore.js:104 | Spreading a patch twice equals spreading it once, and spreading `{}` changes nothing. |
| TodoStore.Merge | src/store/todoStore.js:104 | `{ ...todo, ...updates }`: a field the patch leaves out keeps the todo's value (the id, the completion pair), a given `timeSpent` replaces the old one, and the empty patch returns the todo. |
| TodoStore.Patched | src/store/todoStore.js:101-107 | Same length; each todo with the id is merged with the patch and every other todo is unchanged. |
| TodoStore.PatchedMissing | src/store/todoStore.js:101-107 | Updating an id no todo has changes nothing. |
| TodoStore.Store.UpdateTodo | src/store/todoStore.js:101-107 | The todos become `Patched`; the stacks and every other field are unchanged. |
| TodoStore.WithoutId | src/store/todoStore.js:113 | The todos kept are exactly those whose id differs. |
| TodoStore.WithoutFreshId | src/store/todoStore.js:113 | Filtering out an id no todo has keeps every todo. |
| TodoStore.Store.DeleteTodo | src/store/todoStore.js:109-117 | Removes every todo with the id and always pushes one delete entry carrying the found todo or nothing; the redo stack is unchanged. |
| TodoStore.Store.Undo | src/store/todoStore.js:119-140 | An empty undo stack changes nothing; otherwise the top entry is reverted by `Reverted` and moved to the redo stack; the two stack lengths keep their sum. A delete entry without a snapshot is reverted the corrected way (see "## Left out"). |
| TodoStore.Store.Redo | src/store/todoStore.js:142-163 | An empty redo stack changes nothing; otherwise the top entry is replayed and moved back; a delete entry without a snapshot throws and changes nothing. |
| TodoStore.Reverted | src/store/todoStore.js:125-136 | Undoing an add keeps exactly the todos with another id; undoing a delete with a snapshot appends that snapshot after the unchanged todos; a delete without a snapshot leaves the todos unchanged (the corrected revert, see "## Findings"). |
| TodoStore.Replayed | src/store/todoStore.js:148-159 | Replay fails exactly for a delete entry without a snapshot; redoing an add appends its todo; redoing a delete keeps exactly the todos whose id differs from the snapshot's. |
| TodoStore.UndoAdd | src/store/todoStore.js:125-130 | Undoing the add of a todo with a fresh id gives back the todos from before the add. |
| TodoStore.UndoRedoAdd | src/store/todoStore.js:148-153 | Undo then redo of an add restores the todos with that todo at the end. |
| TodoStore.AddUndoRedoScenario | src/store/todoStore.js:38-163 | Add A, add B, undo: only A is left; redo: A then B, B with its original id and fields. |
| TodoStore.DeleteThenUndo | src/store/todoStore.js:109-136 | When at most one todo has the id, deleting it and undoing gives back the same todos as a multiset (the restored todo goes to the end). |
| TodoStore.UndoDeleteAsWritten | src/store/todoStore.js:133 | The source's undo of a delete: the old todos followed by the entry's snapshot, which may be `undefined`. |
| TodoStore.UndoOfUnknownDelete | src/store/todoStore.js:109-136 | For an unknown id, delete then undo as written leaves an `undefined` among the todos. |
| TodoStore.UnknownDeleteUndone | src/store/todoStore.js:109-136 | For an unknown id, delete then undo with the corrected revert gives back the todos unchanged. |
| TodoStore.MergeSettingsLaws | src/store/todoStore.js:165-169 | Merging the same settings twice equals merging them once, and merging `{}` changes nothing. |
| TodoStore.MergeSettings | src/store/todoStore.js:167 | `{ ...settings, ...patch }`: a theme the patch leaves out is kept, a given theme replaces it, and the empty patch returns the settings. |
| TodoStore.Store.UpdateSettings | src/store/todoStore.js:165-169 | The settings become the old settings merged with the patch; nothing else changes. |
| App.FilteredTodos | src/App.js:116-122 | A todo is shown exactly when it is in the active list, passes the show-completed switch and its text or notes contain the query (ignoring case); every shown todo has the active list's id; with the switch off none is completed; the result is the input filtered once by the three tests together, so it keeps the input order. |
| App.EmptyQueryKeepsAll | src/App.js:116-122 | With an empty query the search keeps every todo the other two filters keep. |
| App.CompareIsByRank | src/App.js:124-130 | The comparator's sign agrees exactly with the order of the ranks: open before completed, then high, medium, low. |
| App.Compare | src/App.js:124-130 | An open todo goes before a completed one and a completed one after an open one; two todos with the same status and priority compare equal; the value lies in -2..2. |
| App.SortTodos | src/App.js:124-130 | The sorted view is a permutation of the filtered one and is in rank order. |
| App.SortedViewOrder | src/App.js:124-130 | No open todo follows a completed one, and within the same completion status priorities never rise. |
| App.SortStable | src/App.js:124-130 | The sort is stable: the todos of each rank keep their relative order. |
| App.SortKeepsSorted | src/App.js:124-130 | A list already in rank order is left unchanged. |
| App.Moved | src/App.js:100-103 | The spliced copy has the same length and the same todos (as a multiset), and the dragged todo is at the destination index. |
| App.Reprioritized | src/App.js:105-111 | The same todos in the same order, index i getting high if 3i < n, medium if 3i < 2n, else low. |
| App.ReprioritizedBands | src/App.js:105-111 | Priorities never rise further down the list; high is exactly the first third and low exactly the last third. |
| App.DraggedOrderIsShown | src/App.js:98-130 | When all todos share a completion status, the sorted view shows a reprioritised list in its dragged order. |
| App.Reorder | src/App.js:100-111 | The array copy with the two splices done in place, then reprioritised, equals `Reprioritized(Moved(...))`. |
| App.ShiftDown | src/App.js:101-102 | The in-place shift of the two splices when the todo moves down: each slot in `lo..hi-1` takes the next slot's old value, every other slot is unchanged. |
| App.ShiftUp | src/App.js:101-102 | The in-place shift when the todo moves up: each slot in `lo+1..hi` takes the previous slot's old value, every other slot is unchanged. |
| App.AppView.HandleDragEnd | src/App.js:98-114 | Without a destination nothing changes; otherwise the todos become the reordered, reprioritised copy and every other store field is unchanged. |
| App.TaskDraft | src/App.js:68-80 | No draft exactly when the input is only white space; otherwise the untrimmed input, the active list and the chosen priority, with no id, completion or time. |
| App.AppView.HandleAddTodo | src/App.js:68-80 | A white-space input changes nothing; otherwise exactly one todo is appended with an add entry, and the input and priority are reset. |
| App.ListDraft | src/App.js:82-96 | No list exactly when the name is only white space; otherwise the trimmed, non-empty name with isDefault and isFavorite false. |
| App.AppView.HandleAddList | src/App.js:82-96 | A white-space name changes nothing; otherwise one list is appended and the form is reset and closed. |
| App.AppView.HandleReset | src/App.js:133-151 | Once confirmed: the single default list, no todos, active list 1, empty stacks, zeroed statistics, settings kept; otherwise nothing changes. |
| App.AppView.SelectList | src/App.js:973 | Clicking a list makes it active and changes nothing else. |
| App.AppView.constructor | src/App.js:32-39 | The form starts empty, with priority medium and icon 📝. |
| App.GroupLists | src/App.js:618-622 | The favourites are exactly the favourite lists; "recent" is at most the first three other lists, in order; "all" is every list. |
| App.FavoritesAndOthers | src/App.js:618-622 | The favourites and the other lists together are all the lists. |
| Durations.HoursOf | src/components/TodoItem.js:15 | Floor division: 3600·h ≤ s < 3600·(h+1). |
| Durations.MinutesOf | src/components/TodoItem.js:16 | With the truncating `%`, the minutes lie in 0..59 for s ≥ 0. |
| Durations.HoursAndMinutes | src/components/TodoItem.js:15-16 | Whole hours and minutes recombine to the seconds rounded down to a minute. |
| TodoItem.FormatTimeSpentReadsBack | src/components/TodoItem.js:13-18 | For s ≥ 0 the text reads back as s rounded down to a whole minute. |
| TodoItem.FormatTimeSpentHours | src/components/TodoItem.js:15-17 | For s ≥ 0 the hours prefix is present exactly when s ≥ 3600. |
| TodoItem.FormatTimeSpentUnderAMinute | src/components/TodoItem.js:14-17 | A missing value and any 0 ≤ s < 60 print "0m". |
| TodoItem.FormatTimeSpentShape | src/components/TodoItem.js:13-18 | For s ≥ 0 the text is the hours numeral and "h " when there is a whole hour, then the minutes numeral and "m"; the minutes are in 0..59 (`Durations.MinutesOf`). |
| TodoItem.FormatTimeSpent | src/components/TodoItem.js:13-18 | The text is never empty and a missing value prints "0m"; what it reads back as is stated by `FormatTimeSpentReadsBack`. |
| TodoItem.Accumulated | src/components/TodoItem.js:27-28 | The added time is the elapsed milliseconds over 1000, rounded half up, and is not negative when the clock did not go back. |
| TodoItem.AccumulatedMonotone | src/components/TodoItem.js:27-28 | A later stop never records less time. |
| TodoItem.TimeTracker.constructor | src/components/TodoItem.js:8-9 | Not tracking, no start time. |
| TodoItem.TimeTracker.HandleTimeTrack | src/components/TodoItem.js:20-31 | Presses alternate between start and stop; a start records `now`; a stop calls onUpdate for the todo's id with only timeSpent, set to the old time (or 0) plus the rounded session seconds. |
| TodoItem.TrackSessionScenario | src/components/TodoItem.js:20-31 | Start then stop: the first press calls nothing; the second updates the todo with at least its previous time. |
| TodoItem.OnCheckbox | src/components/TodoItem.js:52-53 | The checkbox makes exactly one call, onToggle with the todo's id. |
| TodoItem.CheckboxFlipsCompletion | src/components/TodoItem.js:52-53 | The store's answer to that call flips the todo's completion and leaves todos with other ids alone. |
| TodoItem.OnTextEdit | src/components/TodoItem.js:77 | One `onUpdate` call for the row's id whose patch carries the new text. |
| TodoItem.OnNotesEdit | src/components/TodoItem.js:152 | One `onUpdate` call for the row's id whose patch carries the new notes. |
| TodoItem.TextEditChangesOnlyText | src/components/TodoItem.js:77 | A text edit updates the row's todo and changes only its text. |
| TodoItem.NotesEditChangesOnlyNotes | src/components/TodoItem.js:152 | A notes edit updates the row's todo and changes only its notes. |
| Statistics.CompletedTasks | src/components/Statistics.js:9 | The completed count is at most the number of todos. |
| Statistics.CompletedTasksExtremes | src/components/Statistics.js:9 | No todo done counts 0; every todo done counts all of them. |
| Statistics.CompletionRate | src/components/Statistics.js:9-11 | 0 without todos; otherwise round(100·completed/total), characterised on integers, always in 0..100. |
| Statistics.CompletionRateExtremes | src/components/Statistics.js:11 | Everything done gives 100 and nothing done gives 0. |
| Statistics.CompletedToday | src/components/Statistics.js:12 | Today's count is at most the completed count. |
| Statistics.CompletedTodayCounts | src/components/Statistics.js:12 | A todo is counted today exactly when it is completed and its completion time is today. |
| Statistics.TotalFrom | src/components/Statistics.js:13 | With no negative times the fold never ends below its start value. |
| Statistics.TotalTimeSpent | src/components/Statistics.js:13 | No todos total 0, and with no negative times the total is non-negative. |
| Statistics.TotalFromIsSum | src/components/Statistics.js:13 | The reduce from a start value equals that value plus the sum of the times, a missing time counting 0. |
| Statistics.TotalTimeSpentAppend | src/components/Statistics.js:13 | The total of two groups of todos is the sum of their totals. |
| Statistics.TotalTimeSpentBounds | src/components/Statistics.js:13 | With no negative times the total is non-negative and at least each todo's time. |
| Statistics.FormatTimeShowsHours | src/components/Statistics.js:16-20 | The hours part is always printed. |
| Statistics.FormatTime | src/components/Statistics.js:16-20 | The text always ends in the minutes' "m"; that it shows the hours and reads back is stated by the two lemmas beside it. |
| Statistics.FormatTimeReadsBack | src/components/Statistics.js:16-20 | For s ≥ 0 the text reads back as s rounded down to a whole minute. |
| Statistics.FormatTimeShape | src/components/Statistics.js:16-20 | For s ≥ 0 the text is exactly the hours numeral, "h ", the minutes numeral and "m", with the minutes in 0..59. |
| Js.Trim | src/App.js:70-86 | The result is empty exactly when the input is all white space; otherwise it starts and ends with a non-space and is the input minus white-space ends. |
| Js.ToLower | src/App.js:120-121 | Same length, each character lowered. |
| Js.Includes | src/App.js:120-121 | A string includes only queries no longer than itself. |
| Js.ParseNatToString | src/components/TodoItem.js:17 | The decimal text of a number reads back as that number. |
| Js.IntToString | src/components/TodoItem.js:17 | `${n}`: a non-empty text; the digits of n for n ≥ 0 and a minus sign before the digits of -n otherwise. |
| Js.TruncRem | src/components/TodoItem.js:16 | JavaScript's `%`: the remainder has the sign of the dividend and the magnitude of the Euclidean one. |
| Js.RoundDiv | src/components/Statistics.js:11 | `Math.round(n / d)` as the integer r with 2dr ≤ 2n + d < 2d(r+1). |

## Left out

- Persistence: the zustand `persist` middleware, the localStorage snapshot under 'todo-storage' and the 'has-visited' flag are I/O.
- The fallbacks for old persisted data: `state.statistics || {...}` and the `|| []` around `completedTodayIds`. The model's statistics are never missing.
- Dates: `Date.now()`, `new Date()`, date-fns `format` and `isToday` are parameters. The model does not check that `yesterday` is the day before `today`.
- toggleTodo mutates the stored statistics object in place before it builds the new one. The model builds the new value from a local copy. Every reader sees the same state afterwards, so only the aliasing is not modelled.
- Rendering: JSX, CSS classes, SVG, Confetti, toasts and their messages (including the toast text `formatTimeSpent(timeSpent)` at the end of a tracking session).
- Swipe and drawer gestures, the drag-and-drop library's wiring, the keyboard shortcuts and the voice input of QuickActions.js. They are UI events, float thresholds or foreign APIs; the core operations they call are modelled.
- Help.js and tailwind.config.js, which are static content and styling.
- The unimplemented list-delete stub.
- Statistics.CompletionRate: computes round(100·c/t) exactly. The source computes `(c / t) * 100` in floating point, which can fall just below a half (for example 0.145 · 100). The floating-point error is not modelled.
- Js.Trim: removes only ASCII white space, NBSP and BOM, not the other Unicode space separators or line terminators.
- Js.ToLower: lowers ASCII letters only. The search is therefore narrower than the source's for other letters: the query "é" finds "É" in the source but not in the model, and App.FilteredTodos inherits this.
- Accumulated: the elapsed milliseconds are integers. A non-integer clock is not modelled.
- TodoItem.FormatTimeSpentReadsBack, TodoItem.FormatTimeSpentHours and Statistics.FormatTimeReadsBack are stated for non-negative seconds. The formatters themselves follow JavaScript's floor and truncating `%` for negative values too.
- The `todo.timeSpent > 0` guard that decides whether the row shows its time is rendering.
- TodoStore.Store.Undo: uses the corrected revert (`TodoStore.Reverted`) for a delete entry without a snapshot and leaves the todos unchanged. The source appends `undefined` to the todos there (src/store/todoStore.js:133), after which the view's filters throw. The todos are a sequence of todos, so an `undefined` slot cannot be stored in the class; the as-written behaviour is `TodoStore.UndoDeleteAsWritten` and is exhibited by `TodoStore.UndoOfUnknownDelete`.
- TodoStore.Store.AddTodo: requires a draft with text, list and priority. Every caller supplies them, and a todo without them breaks the view's filters.

## Findings

| source | as written | input that shows it | evidently intended | confidence | as-written member | corrected member |
|---|---|---|---|---|---|---|
| src/store/todoStore.js:133 | Undoing a delete entry appends `lastAction.todo` even when the delete found no todo, so `undefined` joins the todos. The next filter or render then reads `undefined.listId` and throws. | `deleteTodo(id)` for an id no todo has, then `undo()` | Undoing a delete that removed nothing leaves the todos unchanged | high, not executed | TodoStore.UndoOfUnknownDelete | TodoStore.UnknownDeleteUndone |
