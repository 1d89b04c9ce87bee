/**
 * The application's single store (src/store/todoStore.js): lists, todos, the
 * active list, the undo and redo stacks, the settings and the daily
 * statistics, and the actions that replace them.
 *
 * The store is a class whose fields the actions reassign. The new value of a
 * field is built by the map/filter functions below, which are what the
 * lemmas at the end of the module are about. The clock is a parameter:
 * `id` stands for `Date.now()`, `now` for `new Date().toISOString()`, and
 * `today`/`yesterday` for the 'yyyy-MM-dd' strings of the current and the
 * previous day.
 */
module TodoStore {
  import opened Wrappers
  import opened Seqs

  datatype Priority = High | Medium | Low

  /** A task. `None` stands for a field that is `undefined` or `null`. */
  datatype Todo = Todo(
    id: int,
    text: string,
    listId: int,
    priority: Priority,
    completed: bool,
    completedAt: Option<string>,
    createdAt: string,
    dueDate: Option<string>,
    notes: Option<string>,
    timeSpent: Option<int>,
    subtasks: seq<string>)

  /**
   * An object spread over a todo (`{ ...todo, ...patch }`): each field the
   * patch carries replaces the todo's, the others are kept.
   */
  datatype Patch = Patch(
    id: Option<int>,
    text: Option<string>,
    listId: Option<int>,
    priority: Option<Priority>,
    completed: Option<bool>,
    completedAt: Option<Option<string>>,
    createdAt: Option<string>,
    dueDate: Option<Option<string>>,
    notes: Option<Option<string>>,
    timeSpent: Option<Option<int>>,
    subtasks: Option<seq<string>>)

  /** The empty object `{}`. */
  const NoChange := Patch(None, None, None, None, None, None, None, None, None, None, None)

  /** A list ("space"). The default list has no `isFavorite` key, which reads as false. */
  datatype TodoList = TodoList(id: int, name: string, icon: string, isDefault: bool, isFavorite: bool)

  /** What `addList` is given. */
  datatype ListData = ListData(name: string, icon: string, isDefault: bool, isFavorite: bool)

  /** An undo/redo entry: `{ action: 'add', todo }` or `{ action: 'delete', todo }`. */
  datatype Entry = Added(todo: Todo) | Deleted(snapshot: Option<Todo>)

  datatype Settings = Settings(theme: string, showCompleted: bool, sortBy: string, viewMode: string)

  datatype SettingsPatch = SettingsPatch(
    theme: Option<string>, showCompleted: Option<bool>, sortBy: Option<string>, viewMode: Option<string>)

  datatype Stats = Stats(
    completedToday: nat, streak: nat, lastCompleted: Option<string>, completedTodayIds: seq<int>)

  /** The lists of a fresh store: the one default list. */
  const InitialLists := [TodoList(1, "My Tasks", "📝", true, false)]

  const InitialSettings := Settings("light", true, "priority", "list")

  const ZeroStats := Stats(0, 0, None, [])

  /** `{ ...t, ...p }`. */
  function Merge(t: Todo, p: Patch): (r: Todo)
    ensures p.id.None? ==> r.id == t.id
    ensures p.completed.None? && p.completedAt.None? ==> r.completed == t.completed && r.completedAt == t.completedAt
    ensures p.timeSpent.Some? ==> r.timeSpent == p.timeSpent.value
    ensures p == NoChange ==> r == t
  {
    Todo(
      p.id.GetOr(t.id), p.text.GetOr(t.text), p.listId.GetOr(t.listId), p.priority.GetOr(t.priority),
      p.completed.GetOr(t.completed), p.completedAt.GetOr(t.completedAt), p.createdAt.GetOr(t.createdAt),
      p.dueDate.GetOr(t.dueDate), p.notes.GetOr(t.notes), p.timeSpent.GetOr(t.timeSpent),
      p.subtasks.GetOr(t.subtasks))
  }

  /** Spreading the same patch twice is spreading it once; spreading `{}` changes nothing. */
  lemma MergeLaws(t: Todo, p: Patch)
    ensures Merge(Merge(t, p), p) == Merge(t, p)
    ensures Merge(t, NoChange) == t
  {
  }

  /** `{ ...settings, ...p }`. */
  function MergeSettings(s: Settings, p: SettingsPatch): (r: Settings)
    ensures p.theme.None? ==> r.theme == s.theme
    ensures p.theme.Some? ==> r.theme == p.theme.value
    ensures p == SettingsPatch(None, None, None, None) ==> r == s
  {
    Settings(p.theme.GetOr(s.theme), p.showCompleted.GetOr(s.showCompleted),
             p.sortBy.GetOr(s.sortBy), p.viewMode.GetOr(s.viewMode))
  }

  /** Merging the same settings twice is merging them once; merging `{}` changes nothing. */
  lemma MergeSettingsLaws(s: Settings, p: SettingsPatch)
    ensures MergeSettings(MergeSettings(s, p), p) == MergeSettings(s, p)
    ensures MergeSettings(s, SettingsPatch(None, None, None, None)) == s
  {
  }

  /** A draft every caller of `addTodo` supplies: text, list and priority. */
  predicate IsDraft(draft: Patch) {
    draft.text.Some? && draft.listId.Some? && draft.priority.Some?
  }

  /**
   * The todo `addTodo` builds: the defaults `id`, `createdAt`, `completed: false`,
   * `timeSpent: 0` and `subtasks: []`, each overridden by the caller's field when
   * the draft has one.
   */
  function NewTodo(draft: Patch, id: int, now: string): (t: Todo)
    requires IsDraft(draft)
    ensures t.id == draft.id.GetOr(id) && t.createdAt == draft.createdAt.GetOr(now)
    ensures t.completed == draft.completed.GetOr(false)
    ensures t.timeSpent == draft.timeSpent.GetOr(Some(0))
    ensures t.subtasks == draft.subtasks.GetOr([])
    ensures t.text == draft.text.value && t.listId == draft.listId.value && t.priority == draft.priority.value
    ensures t.completedAt == draft.completedAt.GetOr(None)
    ensures t.notes == draft.notes.GetOr(None) && t.dueDate == draft.dueDate.GetOr(None)
  {
    Merge(Todo(id, "", 0, Medium, false, None, now, None, None, Some(0), []), draft)
  }

  /** `todos.find(t => t.id === id)`: the first todo with that id, if any. */
  function Find(todos: seq<Todo>, id: int): (r: Option<Todo>)
    ensures r.None? <==> forall i :: 0 <= i < |todos| ==> todos[i].id != id
    ensures r.Some? ==> exists i :: 0 <= i < |todos| && todos[i] == r.value && todos[i].id == id
                                    && forall j :: 0 <= j < i ==> todos[j].id != id
  {
    if todos == [] then None
    else if todos[0].id == id then Some(todos[0])
    else
      var r := Find(todos[1..], id);
      assert r.Some? ==> exists i :: 1 <= i < |todos| && todos[i] == r.value && todos[i].id == id
                                    && forall j :: 0 <= j < i ==> todos[j].id != id by {
        if r.Some? {
          var k :| 0 <= k < |todos| - 1 && todos[1..][k] == r.value && todos[1..][k].id == id
                   && forall j :: 0 <= j < k ==> todos[1..][j].id != id;
          assert todos[k + 1] == r.value;
          assert forall j :: 0 <= j < k + 1 ==> todos[j].id != id by {
            forall j | 0 <= j < k + 1 ensures todos[j].id != id {
              if j > 0 { assert todos[j] == todos[1..][j - 1]; }
            }
          }
        }
      }
      r
  }

  /** `todos.filter(t => t.id !== id)`. */
  function WithoutId(todos: seq<Todo>, id: int): (r: seq<Todo>)
    ensures forall t :: t in r <==> t in todos && t.id != id
  {
    FilterMembers(todos, (t: Todo) => t.id != id);
    Filter(todos, (t: Todo) => t.id != id)
  }

  /** `todos.map(t => t.id === id ? { ...t, ...p } : t)`: every todo with that id is patched. */
  function Patched(todos: seq<Todo>, id: int, p: Patch): (r: seq<Todo>)
    ensures |r| == |todos|
    ensures forall i :: 0 <= i < |todos| ==> r[i] == if todos[i].id == id then Merge(todos[i], p) else todos[i]
  {
    if todos == [] then []
    else [if todos[0].id == id then Merge(todos[0], p) else todos[0]] + Patched(todos[1..], id, p)
  }

  /** Patching an id that no todo has changes nothing. */
  lemma PatchedMissing(todos: seq<Todo>, id: int, p: Patch)
    requires forall i :: 0 <= i < |todos| ==> todos[i].id != id
    ensures Patched(todos, id, p) == todos
  {
  }

  function CompletePatch(now: string): Patch {
    NoChange.(completed := Some(true), completedAt := Some(Some(now)))
  }

  const ReopenPatch := NoChange.(completed := Some(false), completedAt := Some(None))

  /** `todo?.completed === false` for the todo `find` returns. */
  predicate Completes(todos: seq<Todo>, id: int) {
    var found := Find(todos, id);
    found.Some? && !found.value.completed
  }

  /**
   * The todos after `toggleTodo(id)`: when the first todo with that id is open,
   * every todo with that id is completed at `now`; otherwise (it is completed,
   * or there is none) every todo with that id is reopened.
   */
  function Toggled(todos: seq<Todo>, id: int, now: string): (r: seq<Todo>)
    ensures |r| == |todos|
    ensures forall i :: 0 <= i < |todos| && todos[i].id != id ==> r[i] == todos[i]
    ensures Completes(todos, id) ==> forall i :: 0 <= i < |todos| && todos[i].id == id ==>
              r[i] == todos[i].(completed := true, completedAt := Some(now))
    ensures !Completes(todos, id) ==> forall i :: 0 <= i < |todos| && todos[i].id == id ==>
              r[i] == todos[i].(completed := false, completedAt := None)
  {
    if Completes(todos, id) then Patched(todos, id, CompletePatch(now)) else Patched(todos, id, ReopenPatch)
  }

  /** The daily rollover: a new day starts the count afresh. */
  function RolledOver(s: Stats, today: string): Stats {
    if s.lastCompleted != Some(today) then s.(completedToday := 0, completedTodayIds := []) else s
  }

  /** The count of today's completions agrees with the ids counted, and no id is counted twice. */
  predicate StatsSynced(s: Stats) {
    && s.completedToday == |s.completedTodayIds|
    && forall i, j :: 0 <= i < j < |s.completedTodayIds| ==> s.completedTodayIds[i] != s.completedTodayIds[j]
  }

  /**
   * The statistics after `toggleTodo(id)`, `completing` telling whether the
   * toggle completes a todo.
   */
  function StatsAfterToggle(s: Stats, completing: bool, id: int, today: string, yesterday: string): (r: Stats)
    // every toggle, even of an unknown id, marks today as the last completion day
    ensures r.lastCompleted == Some(today)
    ensures s.lastCompleted != Some(today) && !completing ==> r.completedToday == 0 && r.completedTodayIds == []
    ensures s.lastCompleted == Some(today) && !completing ==> r == s
    // a completion is counted once per id and day
    ensures completing ==>
              var b := RolledOver(s, today);
              if id in b.completedTodayIds then r.completedToday == b.completedToday && r.completedTodayIds == b.completedTodayIds
              else r.completedToday == b.completedToday + 1 && r.completedTodayIds == b.completedTodayIds + [id]
    ensures completing ==> id in r.completedTodayIds
    // only a completion the day after the last one continues the streak
    ensures completing ==> r.streak == if s.lastCompleted == Some(yesterday) then s.streak + 1 else 1
    ensures !completing ==> r.streak == s.streak
    ensures StatsSynced(s) || s.lastCompleted != Some(today) ==> StatsSynced(r)
  {
    var b := RolledOver(s, today);
    if completing then
      var shouldCount := id !in b.completedTodayIds;
      Stats(
        if shouldCount then b.completedToday + 1 else b.completedToday,
        if s.lastCompleted == Some(yesterday) then s.streak + 1 else 1,
        Some(today),
        if shouldCount then b.completedTodayIds + [id] else b.completedTodayIds)
    else
      b.(lastCompleted := Some(today))
  }

  /**
   * What undoing an entry does to the todos, with the corrected revert of a
   * delete entry that has no snapshot (see `UndoDeleteAsWritten`).
   */
  function Reverted(todos: seq<Todo>, e: Entry): (r: seq<Todo>)
    ensures e.Added? ==> forall t :: t in r <==> t in todos && t.id != e.todo.id
    ensures e.Deleted? && e.snapshot.Some? ==> |r| == |todos| + 1 && r[|todos|] == e.snapshot.value && r[..|todos|] == todos
    ensures e == Deleted(None) ==> r == todos
  {
    match e
    case Added(t) => WithoutId(todos, t.id)
    case Deleted(Some(t)) => todos + [t]
    case Deleted(None) => todos
  }

  /**
   * Undoing a delete entry as the source writes it (`[...todos, entry.todo]`),
   * over todo slots that may hold `undefined`: the entry's todo is appended
   * whether or not the delete found one.
   */
  function UndoDeleteAsWritten(todos: seq<Todo>, snapshot: Option<Todo>): (r: seq<Option<Todo>>)
    ensures |r| == |todos| + 1
    ensures forall i :: 0 <= i < |todos| ==> r[i] == Some(todos[i])
    ensures r[|todos|] == snapshot
  {
    seq(|todos|, i requires 0 <= i < |todos| => Some(todos[i])) + [snapshot]
  }

  /** Deleting an id no todo has and undoing that delete, as written, puts an `undefined` among the todos. */
  lemma UndoOfUnknownDelete(todos: seq<Todo>, id: int)
    requires FreshId(todos, id)
    ensures None in UndoDeleteAsWritten(WithoutId(todos, id), Find(todos, id))
  {
    var r := UndoDeleteAsWritten(WithoutId(todos, id), Find(todos, id));
    assert r[|WithoutId(todos, id)|] == None;
  }

  /** With `Reverted`, deleting an id no todo has and undoing that delete gives back the todos unchanged. */
  lemma UnknownDeleteUndone(todos: seq<Todo>, id: int)
    requires FreshId(todos, id)
    ensures Reverted(WithoutId(todos, id), Deleted(Find(todos, id))) == todos
  {
    WithoutFreshId(todos, id);
  }

  /**
   * What redoing an entry does to the todos; `None` when the source's update
   * throws (a delete entry without a snapshot: `undefined.id`). The source's
   * filter reads `lastAction.todo.id` only when it runs its callback, that is
   * on a non-empty todo array; the throw is certain because the source's undo
   * of that entry has already appended `undefined` to the todos.
   */
  function Replayed(todos: seq<Todo>, e: Entry): (r: Option<seq<Todo>>)
    ensures r.None? <==> e == Deleted(None)
    ensures e.Added? ==> r == Some(todos + [e.todo])
    ensures e.Deleted? && e.snapshot.Some? ==> r.Some? && forall t :: t in r.value <==> t in todos && t.id != e.snapshot.value.id
  {
    match e
    case Added(t) => Some(todos + [t])
    case Deleted(Some(t)) => Some(WithoutId(todos, t.id))
    case Deleted(None) => None
  }

  predicate FreshId(todos: seq<Todo>, id: int) {
    forall i :: 0 <= i < |todos| ==> todos[i].id != id
  }

  /** Adding a todo with a fresh id and undoing the add gives back the todos as they were. */
  lemma {:induction false} UndoAdd(todos: seq<Todo>, t: Todo)
    requires FreshId(todos, t.id)
    ensures Reverted(todos + [t], Added(t)) == todos
  {
    var p := (x: Todo) => x.id != t.id;
    FilterAppend(todos, [t], p);
    FilterKeepsAll(todos, p);
  }

  /** After add and undo, redo brings the same todo back, at the end. */
  lemma UndoRedoAdd(todos: seq<Todo>, t: Todo)
    requires FreshId(todos, t.id)
    ensures Replayed(Reverted(todos + [t], Added(t)), Added(t)) == Some(todos + [t])
  {
    UndoAdd(todos, t);
  }

  predicate AtMostOne(todos: seq<Todo>, id: int) {
    forall i, j :: 0 <= i < j < |todos| && todos[i].id == id ==> todos[j].id != id
  }

  /** Filtering a todo list by id, one element at a time. */
  lemma WithoutIdCons(h: Todo, rest: seq<Todo>, id: int)
    ensures WithoutId([h] + rest, id) == (if h.id != id then [h] else []) + WithoutId(rest, id)
  {
    assert ([h] + rest)[1..] == rest;
  }

  /** Filtering out an id that no todo has keeps every todo. */
  lemma WithoutFreshId(todos: seq<Todo>, id: int)
    requires FreshId(todos, id)
    ensures WithoutId(todos, id) == todos
  {
    FilterKeepsAll(todos, (t: Todo) => t.id != id);
  }

  /**
   * Deleting a todo and undoing the delete gives back the same todos, the
   * restored one possibly at another position (as a multiset), provided at
   * most one todo had that id.
   */
  lemma {:induction false} DeleteThenUndo(todos: seq<Todo>, id: int)
    requires AtMostOne(todos, id)
    ensures multiset(Reverted(WithoutId(todos, id), Deleted(Find(todos, id)))) == multiset(todos)
  {
    if todos != [] {
      if todos[0].id == id {
        DeleteFirst(todos, id);
      } else {
        var rest := todos[1..];
        assert AtMostOne(rest, id) by {
          forall i, j | 0 <= i < j < |rest| && rest[i].id == id ensures rest[j].id != id {
            assert todos[i + 1] == rest[i] && todos[j + 1] == rest[j];
          }
        }
        DeleteThenUndo(rest, id);
        DeleteLater(todos, id);
      }
    }
  }

  /** The case of `DeleteThenUndo` where the first todo has the id. */
  lemma DeleteFirst(todos: seq<Todo>, id: int)
    requires todos != [] && todos[0].id == id && AtMostOne(todos, id)
    ensures multiset(Reverted(WithoutId(todos, id), Deleted(Find(todos, id)))) == multiset(todos)
  {
    var h, rest := todos[0], todos[1..];
    assert todos == [h] + rest;
    WithoutIdCons(h, rest, id);
    assert FreshId(rest, id) by {
      forall i | 0 <= i < |rest| ensures rest[i].id != id {
        assert todos[i + 1] == rest[i];
      }
    }
    WithoutFreshId(rest, id);
    assert Find(todos, id) == Some(h);
    assert Reverted(WithoutId(todos, id), Deleted(Some(h))) == rest + [h];
  }

  /** The step of `DeleteThenUndo` past a first todo with another id. */
  lemma DeleteLater(todos: seq<Todo>, id: int)
    requires todos != [] && todos[0].id != id
    requires multiset(Reverted(WithoutId(todos[1..], id), Deleted(Find(todos[1..], id)))) == multiset(todos[1..])
    ensures multiset(Reverted(WithoutId(todos, id), Deleted(Find(todos, id)))) == multiset(todos)
  {
    var h, rest := todos[0], todos[1..];
    assert todos == [h] + rest;
    WithoutIdCons(h, rest, id);
    var f := Find(rest, id);
    var w := WithoutId(rest, id);
    RevertedDeleteCons(h, w, f);
    calc {
      multiset(Reverted(WithoutId(todos, id), Deleted(Find(todos, id))));
      multiset(Reverted([h] + w, Deleted(f)));
      multiset([h] + Reverted(w, Deleted(f)));
      multiset([h]) + multiset(Reverted(w, Deleted(f)));
      multiset([h]) + multiset(rest);
      multiset([h] + rest);
    }
  }

  /** Undoing a delete only appends: the todos in front stay where they are. */
  lemma RevertedDeleteCons(h: Todo, w: seq<Todo>, f: Option<Todo>)
    ensures Reverted([h] + w, Deleted(f)) == [h] + Reverted(w, Deleted(f))
  {
    if f.Some? {
      assert ([h] + w) + [f.value] == [h] + (w + [f.value]);
    }
  }

  /** The source's invariant that a todo is completed exactly when it has a completion time. */
  predicate Consistent(todos: seq<Todo>) {
    forall i :: 0 <= i < |todos| ==> (todos[i].completed <==> todos[i].completedAt.Some?)
  }

  /** Toggling keeps the completion flags and times consistent. */
  lemma ToggleConsistent(todos: seq<Todo>, id: int, now: string)
    requires Consistent(todos)
    ensures Consistent(Toggled(todos, id, now))
  {
  }

  /**
   * Toggling an open todo twice gives back the todos as they were, when every
   * todo with that id is open and has no completion time.
   */
  lemma ToggleTwice(todos: seq<Todo>, id: int, now: string, later: string)
    requires Completes(todos, id)
    requires forall i :: 0 <= i < |todos| && todos[i].id == id ==> !todos[i].completed && todos[i].completedAt.None?
    ensures Toggled(Toggled(todos, id, now), id, later) == todos
  {
    var once := Patched(todos, id, CompletePatch(now));
    assert Toggled(todos, id, now) == once;
    CompletedNotCompletes(todos, id, now);
    assert Toggled(once, id, later) == Patched(once, id, ReopenPatch);
    ReopenUndoesComplete(todos, id, now);
  }

  /** Reopening what was just completed restores todos that were open with no completion time. */
  lemma {:induction false} ReopenUndoesComplete(todos: seq<Todo>, id: int, now: string)
    requires forall i :: 0 <= i < |todos| && todos[i].id == id ==> !todos[i].completed && todos[i].completedAt.None?
    ensures Patched(Patched(todos, id, CompletePatch(now)), id, ReopenPatch) == todos
  {
    if todos != [] {
      var once := Patched(todos, id, CompletePatch(now));
      assert once[1..] == Patched(todos[1..], id, CompletePatch(now));
      ReopenUndoesComplete(todos[1..], id, now);
      assert Patched(once, id, ReopenPatch)[0] == todos[0];
    }
  }

  /** Once every todo with an id is completed, toggling that id reopens. */
  lemma CompletedNotCompletes(todos: seq<Todo>, id: int, now: string)
    requires Completes(todos, id)
    ensures !Completes(Patched(todos, id, CompletePatch(now)), id)
  {
    var once := Patched(todos, id, CompletePatch(now));
    var k :| 0 <= k < |todos| && todos[k] == Find(todos, id).value && todos[k].id == id
             && forall j :: 0 <= j < k ==> todos[j].id != id;
    assert once[k].completed && once[k].id == id;
    assert forall j :: 0 <= j < k ==> once[j].id != id;
    FindFirst(once, id, k);
  }

  /** The todo at the first index with an id is the one `find` returns. */
  lemma {:induction false} FindFirst(todos: seq<Todo>, id: int, k: nat)
    requires k < |todos| && todos[k].id == id
    requires forall j :: 0 <= j < k ==> todos[j].id != id
    ensures Find(todos, id) == Some(todos[k])
  {
    if k > 0 {
      assert forall j :: 0 <= j < k - 1 ==> todos[1..][j].id != id by {
        forall j | 0 <= j < k - 1 ensures todos[1..][j].id != id {
          assert todos[1..][j] == todos[j + 1];
        }
      }
      FindFirst(todos[1..], id, k - 1);
    }
  }

  /** A second completion on the same day restarts the streak at 1: only "yesterday" continues it. */
  lemma SameDayCompletionRestartsStreak(s: Stats, id1: int, id2: int, today: string, yesterday: string)
    requires today != yesterday
    ensures StatsAfterToggle(StatsAfterToggle(s, true, id1, today, yesterday), true, id2, today, yesterday).streak == 1
  {
  }

  class Store {
    var lists: seq<TodoList>
    var todos: seq<Todo>
    var activeList: int
    var undoStack: seq<Entry>
    var redoStack: seq<Entry>
    var settings: Settings
    var statistics: Stats

    /** The statistics invariant that toggling maintains. */
    predicate Valid()
      reads this
    {
      StatsSynced(statistics)
    }

    /** The initial state. */
    constructor ()
      ensures lists == InitialLists && todos == [] && activeList == 1
      ensures undoStack == [] && redoStack == []
      ensures settings == InitialSettings && statistics == ZeroStats
      ensures Valid()
    {
      lists := InitialLists;
      todos := [];
      activeList := 1;
      undoStack := [];
      redoStack := [];
      settings := InitialSettings;
      statistics := ZeroStats;
    }

    /** `addList`: appends a list with the fresh id. */
    method AddList(data: ListData, id: int)
      modifies this
      ensures lists == old(lists) + [TodoList(id, data.name, data.icon, data.isDefault, data.isFavorite)]
      ensures todos == old(todos) && activeList == old(activeList)
      ensures undoStack == old(undoStack) && redoStack == old(redoStack)
      ensures settings == old(settings) && statistics == old(statistics)
    {
      lists := lists + [TodoList(id, data.name, data.icon, data.isDefault, data.isFavorite)];
    }

    /** `addTodo`: appends the new todo and records it for undo; the redo stack is kept. */
    method AddTodo(draft: Patch, id: int, now: string)
      requires IsDraft(draft)
      modifies this
      ensures todos == old(todos) + [NewTodo(draft, id, now)]
      ensures undoStack == old(undoStack) + [Added(NewTodo(draft, id, now))]
      ensures redoStack == old(redoStack)
      ensures lists == old(lists) && activeList == old(activeList)
      ensures settings == old(settings) && statistics == old(statistics)
    {
      var newTodo := NewTodo(draft, id, now);
      todos := todos + [newTodo];
      undoStack := undoStack + [Added(newTodo)];
    }

    /**
     * `toggleTodo`: rolls the statistics over to `today`, then completes the
     * todo (counting it and updating the streak) or reopens it.
     */
    method ToggleTodo(id: int, today: string, yesterday: string, now: string)
      modifies this
      ensures todos == Toggled(old(todos), id, now)
      ensures statistics == StatsAfterToggle(old(statistics), Completes(old(todos), id), id, today, yesterday)
      ensures old(Valid()) ==> Valid()
      ensures lists == old(lists) && activeList == old(activeList)
      ensures undoStack == old(undoStack) && redoStack == old(redoStack) && settings == old(settings)
    {
      var todo := Find(todos, id);
      ghost var completing := Completes(todos, id);
      ghost var after := Toggled(todos, id, now);
      ghost var stats := StatsAfterToggle(statistics, completing, id, today, yesterday);
      var currentStats := statistics;
      if currentStats.lastCompleted != Some(today) {
        currentStats := currentStats.(completedToday := 0);
        currentStats := currentStats.(completedTodayIds := []);
      }
      assert currentStats == RolledOver(statistics, today);
      if todo.Some? && !todo.value.completed {
        var shouldCount := id !in currentStats.completedTodayIds;
        var isConsecutiveDay := currentStats.lastCompleted == Some(yesterday);
        todos := Patched(todos, id, CompletePatch(now));
        statistics := currentStats.(
          completedToday := if shouldCount then currentStats.completedToday + 1 else currentStats.completedToday,
          completedTodayIds := if shouldCount then currentStats.completedTodayIds + [id] else currentStats.completedTodayIds,
          streak := if isConsecutiveDay then currentStats.streak + 1 else 1,
          lastCompleted := Some(today));
      } else {
        todos := Patched(todos, id, ReopenPatch);
        statistics := currentStats.(lastCompleted := Some(today));
      }
      assert todos == after && statistics == stats;
    }

    /** `updateTodo`: patches every todo with that id; not recorded for undo. */
    method UpdateTodo(id: int, updates: Patch)
      modifies this
      ensures todos == Patched(old(todos), id, updates)
      ensures lists == old(lists) && activeList == old(activeList)
      ensures undoStack == old(undoStack) && redoStack == old(redoStack)
      ensures settings == old(settings) && statistics == old(statistics)
    {
      todos := Patched(todos, id, updates);
    }

    /**
     * `deleteTodo`: removes every todo with that id and always records a
     * delete entry, whose snapshot is the first such todo or nothing.
     */
    method DeleteTodo(id: int)
      modifies this
      ensures todos == WithoutId(old(todos), id)
      ensures undoStack == old(undoStack) + [Deleted(Find(old(todos), id))]
      ensures redoStack == old(redoStack)
      ensures lists == old(lists) && activeList == old(activeList)
      ensures settings == old(settings) && statistics == old(statistics)
    {
      var todo := Find(todos, id);
      todos := WithoutId(todos, id);
      undoStack := undoStack + [Deleted(todo)];
    }

    /** `undo`: reverts the newest entry and moves it to the redo stack. */
    method Undo()
      modifies this
      ensures old(undoStack) == [] ==> todos == old(todos) && undoStack == [] && redoStack == old(redoStack)
      ensures old(undoStack) != [] ==>
                var e := old(undoStack)[|old(undoStack)| - 1];
                && todos == Reverted(old(todos), e)
                && undoStack == old(undoStack)[..|old(undoStack)| - 1]
                && redoStack == old(redoStack) + [e]
      ensures |undoStack| + |redoStack| == old(|undoStack| + |redoStack|)
      ensures lists == old(lists) && activeList == old(activeList)
      ensures settings == old(settings) && statistics == old(statistics)
    {
      if |undoStack| == 0 {
        return;
      }
      var lastAction := undoStack[|undoStack| - 1];
      match lastAction {
        case Added(t) =>
          todos := WithoutId(todos, t.id);
        case Deleted(Some(t)) =>
          todos := todos + [t];
        case Deleted(None) =>
      }
      undoStack := undoStack[..|undoStack| - 1];
      redoStack := redoStack + [lastAction];
    }

    /**
     * `redo`: replays the newest redo entry and moves it back to the undo
     * stack. Replaying a delete entry without a snapshot throws before the
     * store changes; `threw` reports it.
     */
    method Redo() returns (threw: bool)
      modifies this
      ensures threw <==> old(redoStack) != [] && old(redoStack)[|old(redoStack)| - 1] == Deleted(None)
      ensures old(redoStack) == [] || threw ==>
                todos == old(todos) && undoStack == old(undoStack) && redoStack == old(redoStack)
      ensures old(redoStack) != [] && !threw ==>
                var e := old(redoStack)[|old(redoStack)| - 1];
                && Some(todos) == Replayed(old(todos), e)
                && redoStack == old(redoStack)[..|old(redoStack)| - 1]
                && undoStack == old(undoStack) + [e]
      ensures |undoStack| + |redoStack| == old(|undoStack| + |redoStack|)
      ensures lists == old(lists) && activeList == old(activeList)
      ensures settings == old(settings) && statistics == old(statistics)
    {
      threw := false;
      if |redoStack| == 0 {
        return;
      }
      var lastAction := redoStack[|redoStack| - 1];
      match lastAction {
        case Added(t) =>
          todos := todos + [t];
        case Deleted(Some(t)) =>
          todos := WithoutId(todos, t.id);
        case Deleted(None) =>
          threw := true;
          return;
      }
      redoStack := redoStack[..|redoStack| - 1];
      undoStack := undoStack + [lastAction];
    }

    /** `updateSettings`: spreads the patch over the settings. */
    method UpdateSettings(p: SettingsPatch)
      modifies this
      ensures settings == MergeSettings(old(settings), p)
      ensures lists == old(lists) && todos == old(todos) && activeList == old(activeList)
      ensures undoStack == old(undoStack) && redoStack == old(redoStack) && statistics == old(statistics)
    {
      settings := MergeSettings(settings, p);
    }
  }

  /**
   * Add A, add B, undo, redo: after the undo only A is left; after the redo B
   * is back with its original id and fields.
   */
  method AddUndoRedoScenario(a: Patch, b: Patch, idA: int, idB: int, now: string)
    returns (afterUndo: seq<Todo>, afterRedo: seq<Todo>)
    requires IsDraft(a) && IsDraft(b) && a.id.None? && b.id.None? && idA != idB
    ensures afterUndo == [NewTodo(a, idA, now)]
    ensures afterRedo == [NewTodo(a, idA, now), NewTodo(b, idB, now)]
  {
    var ta, tb := NewTodo(a, idA, now), NewTodo(b, idB, now);
    var s := new Store();
    s.AddTodo(a, idA, now);
    s.AddTodo(b, idB, now);
    assert s.todos == [ta] + [tb] && s.undoStack == [Added(ta), Added(tb)];
    UndoAdd([ta], tb);
    s.Undo();
    afterUndo := s.todos;
    assert s.todos == [ta] && s.undoStack == [Added(ta)] && s.redoStack == [Added(tb)];
    UndoRedoAdd([ta], tb);
    assert [ta] + [tb] == [ta, tb];
    var threw := s.Redo();
    afterRedo := s.todos;
  }

  /** Completing two distinct todos on the same day counts two completions. */
  method CompletionCountScenario(a: Patch, b: Patch, idA: int, idB: int, now: string, today: string, yesterday: string)
    returns (first: nat, second: nat)
    requires IsDraft(a) && IsDraft(b) && a.id.None? && b.id.None? && idA != idB
    requires a.completed.None? && b.completed.None?
    ensures first == 1 && second == 2
  {
    var s := new Store();
    s.AddTodo(a, idA, now);
    s.AddTodo(b, idB, now);
    assert Find(s.todos, idA) == Some(NewTodo(a, idA, now));
    s.ToggleTodo(idA, today, yesterday, now);
    first := s.statistics.completedToday;
    assert s.todos[1] == NewTodo(b, idB, now);
    FindFirst(s.todos, idB, 1);
    s.ToggleTodo(idB, today, yesterday, now);
    second := s.statistics.completedToday;
  }
}
