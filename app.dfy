/**
 * The application component (src/App.js): the derived task view (filter by
 * list, completion and search text, then sort), the drag-and-drop reorder
 * that reassigns priorities by position, the input guards of the add forms,
 * the reset, list selection and the sidebar's grouping of lists.
 */
module App {
  import opened Wrappers
  import opened Seqs
  import opened Js
  import opened TodoStore

  // ---------------------------------------------------------------------
  // The derived view: filteredTodos and sortedTodos
  // ---------------------------------------------------------------------

  function InList(activeList: int): Todo -> bool {
    (t: Todo) => t.listId == activeList
  }

  function Shown(showCompleted: bool): Todo -> bool {
    (t: Todo) => showCompleted || !t.completed
  }

  /** The search test: text or notes contain the query, ignoring (ASCII) case. */
  predicate MatchesQuery(t: Todo, query: string) {
    || Includes(ToLower(t.text), ToLower(query))
    || (t.notes.Some? && Includes(ToLower(t.notes.value), ToLower(query)))
  }

  function Searched(query: string): Todo -> bool {
    (t: Todo) => MatchesQuery(t, query)
  }

  /** The three filter tests at once. */
  function Visible(activeList: int, showCompleted: bool, query: string): Todo -> bool {
    (t: Todo) => InList(activeList)(t) && Shown(showCompleted)(t) && Searched(query)(t)
  }

  /** `filteredTodos`: the three filters, applied in turn. */
  function FilteredTodos(todos: seq<Todo>, activeList: int, showCompleted: bool, query: string): (r: seq<Todo>)
    ensures forall t :: t in r <==>
              t in todos && t.listId == activeList && (showCompleted || !t.completed) && MatchesQuery(t, query)
    ensures forall i :: 0 <= i < |r| ==> r[i].listId == activeList
    ensures !showCompleted ==> forall i :: 0 <= i < |r| ==> !r[i].completed
    ensures |r| <= |todos|
    ensures r == Filter(todos, Visible(activeList, showCompleted, query))
  {
    var inList := Filter(todos, InList(activeList));
    FilterTwice(todos, InList(activeList), Shown(showCompleted),
                (t: Todo) => InList(activeList)(t) && Shown(showCompleted)(t));
    FilterTwice(todos, (t: Todo) => InList(activeList)(t) && Shown(showCompleted)(t), Searched(query),
                Visible(activeList, showCompleted, query));
    var shown := Filter(inList, Shown(showCompleted));
    FilterMembers(todos, InList(activeList));
    FilterMembers(inList, Shown(showCompleted));
    FilterMembers(shown, Searched(query));
    Filter(shown, Searched(query))
  }

  /** With the empty query the search keeps everything the other two filters keep. */
  lemma EmptyQueryKeepsAll(todos: seq<Todo>, activeList: int, showCompleted: bool)
    ensures FilteredTodos(todos, activeList, showCompleted, "")
            == Filter(Filter(todos, InList(activeList)), Shown(showCompleted))
  {
    var kept := Filter(Filter(todos, InList(activeList)), Shown(showCompleted));
    forall i | 0 <= i < |kept| ensures Searched("")(kept[i]) {
      IncludesEmpty(ToLower(kept[i].text));
    }
    FilterKeepsAll(kept, Searched(""));
  }

  /** `priorityOrder`. */
  function PriorityRank(p: Priority): nat {
    match p
    case High => 0
    case Medium => 1
    case Low => 2
  }

  /** The sort comparator: the sign says which of `a` and `b` goes first. */
  function Compare(a: Todo, b: Todo): (r: int)
    ensures !a.completed && b.completed ==> r < 0
    ensures a.completed && !b.completed ==> r > 0
    ensures a.completed == b.completed && a.priority == b.priority ==> r == 0
    ensures -2 <= r <= 2
  {
    if a.completed == b.completed then PriorityRank(a.priority) - PriorityRank(b.priority)
    else if a.completed then 1 else -1
  }

  /** The sort key: open todos first, then by priority. */
  function Rank(t: Todo): nat {
    (if t.completed then 3 else 0) + PriorityRank(t.priority)
  }

  /** The comparator orders todos exactly as their ranks do. */
  lemma CompareIsByRank(a: Todo, b: Todo)
    ensures Compare(a, b) < 0 <==> Rank(a) < Rank(b)
    ensures Compare(a, b) == 0 <==> Rank(a) == Rank(b)
  {
  }

  predicate SortedByRank(s: seq<Todo>) {
    forall i, j :: 0 <= i < j < |s| ==> Rank(s[i]) <= Rank(s[j])
  }

  /** Inserting `x` in front of the first element that does not rank below it. */
  function Insert(x: Todo, s: seq<Todo>): (r: seq<Todo>)
    ensures |r| == |s| + 1
    ensures r[0] == x || (s != [] && r[0] == s[0])
  {
    if s == [] || Rank(x) <= Rank(s[0]) then [x] + s else [s[0]] + Insert(x, s[1..])
  }

  /** Inserting adds `x` and loses nothing. */
  lemma {:induction false} InsertPermutes(x: Todo, s: seq<Todo>)
    ensures multiset(Insert(x, s)) == multiset(s) + multiset{x}
  {
    if s != [] && Rank(x) > Rank(s[0]) {
      InsertPermutes(x, s[1..]);
      assert s == [s[0]] + s[1..];
    }
  }

  /** Inserting into a list in rank order keeps it in rank order. */
  lemma {:induction false} InsertSorted(x: Todo, s: seq<Todo>)
    requires SortedByRank(s)
    ensures SortedByRank(Insert(x, s))
  {
    if s != [] && Rank(x) > Rank(s[0]) {
      var t := Insert(x, s[1..]);
      assert SortedByRank(s[1..]) by {
        forall i, j | 0 <= i < j < |s[1..]| ensures Rank(s[1..][i]) <= Rank(s[1..][j]) {
          assert s[1..][i] == s[i + 1] && s[1..][j] == s[j + 1];
        }
      }
      InsertSorted(x, s[1..]);
      assert Rank(s[0]) <= Rank(t[0]) by {
        if t[0] != x { assert t[0] == s[1]; }
      }
      var r := [s[0]] + t;
      forall i, j | 0 <= i < j < |r| ensures Rank(r[i]) <= Rank(r[j]) {
        if i == 0 {
          assert r[j] == t[j - 1];
          if j > 1 { assert Rank(t[0]) <= Rank(t[j - 1]); }
        } else {
          assert r[i] == t[i - 1] && r[j] == t[j - 1];
        }
      }
    }
  }

  /**
   * `sortedTodos`: a stable sort (as Array.prototype.sort is) with the
   * comparator above. Open todos come first and, among todos with the same
   * completion status, higher priorities come first.
   */
  function SortTodos(s: seq<Todo>): (r: seq<Todo>)
    ensures multiset(r) == multiset(s)
    ensures SortedByRank(r)
  {
    if s == [] then []
    else
      assert s == [s[0]] + s[1..];
      InsertSorted(s[0], SortTodos(s[1..]));
      InsertPermutes(s[0], SortTodos(s[1..]));
      Insert(s[0], SortTodos(s[1..]))
  }

  /**
   * In the sorted view open todos come first and, among todos with the same
   * completion status, higher priorities come first.
   */
  lemma SortedViewOrder(s: seq<Todo>)
    ensures var r := SortTodos(s);
            && (forall i, j :: 0 <= i < j < |r| && r[i].completed ==> r[j].completed)
            && (forall i, j :: 0 <= i < j < |r| && r[i].completed == r[j].completed ==>
                  PriorityRank(r[i].priority) <= PriorityRank(r[j].priority))
  {
    var r := SortTodos(s);
    assert forall i, j :: 0 <= i < j < |r| ==> Rank(r[i]) <= Rank(r[j]);
  }

  function HasRank(k: nat): Todo -> bool {
    (t: Todo) => Rank(t) == k
  }

  /** Inserting keeps the todos of every rank in their order. */
  lemma {:induction false} InsertStable(x: Todo, s: seq<Todo>, k: nat)
    ensures Filter(Insert(x, s), HasRank(k)) == (if Rank(x) == k then [x] else []) + Filter(s, HasRank(k))
  {
    var p := HasRank(k);
    if s == [] || Rank(x) <= Rank(s[0]) {
      FilterAppend([x], s, p);
    } else {
      var tail := Insert(x, s[1..]);
      assert Insert(x, s) == [s[0]] + tail;
      FilterCons(s[0], tail, p);
      InsertStable(x, s[1..], k);
      var rest := Filter(s[1..], p);
      assert Filter(s, p) == (if p(s[0]) then [s[0]] else []) + rest;
      if Rank(x) == k {
        assert !p(s[0]);
        assert Filter(s, p) == rest;
        assert Filter(Insert(x, s), p) == Filter(tail, p) == [x] + rest;
      } else {
        assert Filter(tail, p) == rest;
      }
    }
  }

  /** The sort is stable: the todos of each rank keep their relative order. */
  lemma {:induction false} SortStable(s: seq<Todo>, k: nat)
    ensures Filter(SortTodos(s), HasRank(k)) == Filter(s, HasRank(k))
  {
    if s != [] {
      SortStable(s[1..], k);
      InsertStable(s[0], SortTodos(s[1..]), k);
    }
  }

  /** A list that is already in rank order is left as it is. */
  lemma {:induction false} SortKeepsSorted(s: seq<Todo>)
    requires SortedByRank(s)
    ensures SortTodos(s) == s
  {
    if s != [] {
      assert SortedByRank(s[1..]) by {
        forall i, j | 0 <= i < j < |s[1..]| ensures Rank(s[1..][i]) <= Rank(s[1..][j]) {
          assert s[1..][i] == s[i + 1] && s[1..][j] == s[j + 1];
        }
      }
      SortKeepsSorted(s[1..]);
      assert |s| > 1 ==> Rank(s[0]) <= Rank(s[1]);
    }
  }

  // ---------------------------------------------------------------------
  // handleDragEnd
  // ---------------------------------------------------------------------

  /** The copy after `splice(source, 1)` and `splice(destination, 0, moved)`. */
  function Moved(s: seq<Todo>, source: nat, destination: nat): (r: seq<Todo>)
    requires source < |s| && destination < |s|
    ensures |r| == |s|
    ensures r[destination] == s[source]
    ensures multiset(r) == multiset(s)
  {
    var rest := s[..source] + s[source + 1..];
    assert s == s[..source] + [s[source]] + s[source + 1..];
    assert multiset(s) == multiset(rest) + multiset{s[source]};
    assert rest == rest[..destination] + rest[destination..];
    assert multiset(rest) == multiset(rest[..destination]) + multiset(rest[destination..]);
    rest[..destination] + [s[source]] + rest[destination..]
  }

  /** The priority of position `i` of `n`: the top third high, the middle third medium. */
  function PositionPriority(i: nat, n: nat): Priority {
    if 3 * i < n then High else if 3 * i < 2 * n then Medium else Low
  }

  /** The `map` that gives each todo the priority of its position. */
  function Reprioritized(s: seq<Todo>): (r: seq<Todo>)
    ensures |r| == |s|
    ensures forall i :: 0 <= i < |s| ==> r[i] == s[i].(priority := PositionPriority(i, |s|))
  {
    seq(|s|, i requires 0 <= i < |s| => s[i].(priority := PositionPriority(i, |s|)))
  }

  /** After reprioritizing, priorities never rise further down the list. */
  lemma ReprioritizedBands(s: seq<Todo>, i: nat, j: nat)
    requires i <= j < |s|
    ensures PriorityRank(Reprioritized(s)[i].priority) <= PriorityRank(Reprioritized(s)[j].priority)
    ensures Reprioritized(s)[i].priority == High <==> 3 * i < |s|
    ensures Reprioritized(s)[i].priority == Low <==> 2 * |s| <= 3 * i
  {
  }

  /**
   * When all todos share one completion status, the view's sort shows a
   * reprioritized list in the order it was dragged into.
   */
  lemma DraggedOrderIsShown(s: seq<Todo>)
    requires forall i, j :: 0 <= i < |s| && 0 <= j < |s| ==> s[i].completed == s[j].completed
    ensures SortTodos(Reprioritized(s)) == Reprioritized(s)
  {
    var r := Reprioritized(s);
    forall i, j | 0 <= i < j < |r| ensures Rank(r[i]) <= Rank(r[j]) {
      ReprioritizedBands(s, i, j);
    }
    SortKeepsSorted(r);
  }

  /**
   * The reorder of `handleDragEnd`: copy the todos (`Array.from`), splice the
   * dragged one out and back in at the destination, then reprioritize.
   */
  method Reorder(todos: seq<Todo>, source: nat, destination: nat) returns (r: seq<Todo>)
    requires source < |todos| && destination < |todos|
    ensures r == Reprioritized(Moved(todos, source, destination))
  {
    var n := |todos|;
    var items := new Todo[n](i requires 0 <= i < n => todos[i]);
    assert items[..] == todos;
    var moved := items[source];
    if source < destination {
      ShiftDown(items, source, destination);
    } else if destination < source {
      ShiftUp(items, destination, source);
    }
    items[destination] := moved;
    MovedShape(todos, source, destination, items[..]);
    r := Reprioritized(items[..]);
  }

  /** Moves `items[lo + 1..hi + 1]` one place down, over `items[lo]`. */
  method ShiftDown(items: array<Todo>, lo: nat, hi: nat)
    requires lo < hi < items.Length
    modifies items
    ensures forall i :: 0 <= i < items.Length && !(lo <= i < hi) ==> items[i] == old(items[i])
    ensures forall i :: lo <= i < hi ==> items[i] == old(items[i + 1])
  {
    var k := lo;
    while k < hi
      invariant lo <= k <= hi
      invariant forall i :: 0 <= i < items.Length && !(lo <= i < k) ==> items[i] == old(items[i])
      invariant forall i :: lo <= i < k ==> items[i] == old(items[i + 1])
    {
      items[k] := items[k + 1];
      k := k + 1;
    }
  }

  /** Moves `items[lo..hi]` one place up, over `items[hi]`. */
  method ShiftUp(items: array<Todo>, lo: nat, hi: nat)
    requires lo < hi < items.Length
    modifies items
    ensures forall i :: 0 <= i < items.Length && !(lo < i <= hi) ==> items[i] == old(items[i])
    ensures forall i :: lo < i <= hi ==> items[i] == old(items[i - 1])
  {
    var k := hi;
    while k > lo
      invariant lo <= k <= hi
      invariant forall i :: 0 <= i < items.Length && !(k < i <= hi) ==> items[i] == old(items[i])
      invariant forall i :: k < i <= hi ==> items[i] == old(items[i - 1])
    {
      items[k] := items[k - 1];
      k := k - 1;
    }
  }

  /** What the two splices leave, position by position. */
  lemma MovedShape(s: seq<Todo>, source: nat, destination: nat, a: seq<Todo>)
    requires source < |s| && destination < |s| && |a| == |s|
    requires a[destination] == s[source]
    requires forall i :: 0 <= i < |s| && i < source && i < destination ==> a[i] == s[i]
    requires forall i :: 0 <= i < |s| && source < i && destination < i ==> a[i] == s[i]
    requires forall i :: source <= i < destination ==> a[i] == s[i + 1]
    requires forall i :: destination < i <= source ==> a[i] == s[i - 1]
    ensures a == Moved(s, source, destination)
  {
    var m := Moved(s, source, destination);
    var rest := s[..source] + s[source + 1..];
    forall i | 0 <= i < |s| ensures a[i] == m[i] {
      if i < destination {
        assert m[i] == rest[i];
      } else if i > destination {
        assert m[i] == rest[i - 1];
      }
    }
  }

  // ---------------------------------------------------------------------
  // The add forms' guards
  // ---------------------------------------------------------------------

  /**
   * `handleAddTodo`'s guard: nothing when the input is only white space,
   * otherwise the draft with the input as typed (not trimmed).
   */
  function TaskDraft(input: string, activeList: int, priority: Priority): (r: Option<Patch>)
    ensures r.None? <==> forall i :: 0 <= i < |input| ==> IsSpace(input[i])
    ensures r.Some? ==> IsDraft(r.value) && r.value.text == Some(input)
                        && r.value.listId == Some(activeList) && r.value.priority == Some(priority)
    ensures r.Some? ==> r.value.id.None? && r.value.completed.None? && r.value.timeSpent.None?
  {
    if Trim(input) == [] then None
    else Some(NoChange.(text := Some(input), listId := Some(activeList), priority := Some(priority)))
  }

  /**
   * `handleAddList`'s guard: nothing when the name is only white space,
   * otherwise the trimmed name, not default and not a favourite.
   */
  function ListDraft(listInput: string, icon: string): (r: Option<ListData>)
    ensures r.None? <==> forall i :: 0 <= i < |listInput| ==> IsSpace(listInput[i])
    ensures r.Some? ==> r.value.name == Trim(listInput) && r.value.name != []
                        && r.value.icon == icon && !r.value.isDefault && !r.value.isFavorite
  {
    var name := Trim(listInput);
    if name == [] then None else Some(ListData(name, icon, false, false))
  }

  // ---------------------------------------------------------------------
  // The sidebar's groupedLists
  // ---------------------------------------------------------------------

  datatype Groups = Groups(favorites: seq<TodoList>, recent: seq<TodoList>, all: seq<TodoList>)

  function IsFavorite(): TodoList -> bool {
    (l: TodoList) => l.isFavorite
  }

  function NotFavorite(): TodoList -> bool {
    (l: TodoList) => !l.isFavorite
  }

  /** Favourites, the first three other lists, and all lists. */
  function GroupLists(lists: seq<TodoList>): (g: Groups)
    ensures forall l :: l in g.favorites <==> l in lists && l.isFavorite
    ensures |g.recent| <= 3 && g.recent <= Filter(lists, NotFavorite())
    ensures |g.recent| < 3 ==> g.recent == Filter(lists, NotFavorite())
    ensures forall i :: 0 <= i < |g.recent| ==> g.recent[i] in lists && !g.recent[i].isFavorite
    ensures g.all == lists
  {
    FilterMembers(lists, IsFavorite());
    FilterMembers(lists, NotFavorite());
    Groups(Filter(lists, IsFavorite()), Take(Filter(lists, NotFavorite()), 3), lists)
  }

  /** The favourites and the other lists together are all the lists. */
  lemma FavoritesAndOthers(lists: seq<TodoList>)
    ensures multiset(GroupLists(lists).favorites) + multiset(Filter(lists, NotFavorite())) == multiset(lists)
  {
    FilterPartition(lists, IsFavorite(), NotFavorite());
  }

  // ---------------------------------------------------------------------
  // The component's handlers
  // ---------------------------------------------------------------------

  /** The component's own form state, and the store it drives. */
  class AppView {
    const store: Store
    var input: string
    var todoPriority: Priority
    var listInput: string
    var listIcon: string
    var showListForm: bool

    constructor (store: Store)
      ensures this.store == store
      ensures input == [] && todoPriority == Medium
      ensures listInput == [] && listIcon == "📝" && !showListForm
    {
      this.store := store;
      input := [];
      todoPriority := Medium;
      listInput := [];
      listIcon := "📝";
      showListForm := false;
    }

    /** `handleAddTodo`: adds the typed task to the active list and clears the form. */
    method HandleAddTodo(id: int, now: string)
      modifies this, store
      ensures TaskDraft(old(input), old(store.activeList), old(todoPriority)).None? ==>
                unchanged(this) && unchanged(store)
      ensures TaskDraft(old(input), old(store.activeList), old(todoPriority)).Some? ==>
                var draft := TaskDraft(old(input), old(store.activeList), old(todoPriority)).value;
                && store.todos == old(store.todos) + [NewTodo(draft, id, now)]
                && store.undoStack == old(store.undoStack) + [Added(NewTodo(draft, id, now))]
                && store.redoStack == old(store.redoStack)
                && store.lists == old(store.lists) && store.activeList == old(store.activeList)
                && store.settings == old(store.settings) && store.statistics == old(store.statistics)
                && input == [] && todoPriority == Medium
                && listInput == old(listInput) && listIcon == old(listIcon) && showListForm == old(showListForm)
    {
      var draft := TaskDraft(input, store.activeList, todoPriority);
      if draft.None? {
        return;
      }
      store.AddTodo(draft.value, id, now);
      input := [];
      todoPriority := Medium;
    }

    /** `handleAddList`: creates the space under its trimmed name and closes the form. */
    method HandleAddList(id: int)
      modifies this, store
      ensures ListDraft(old(listInput), old(listIcon)).None? ==> unchanged(this) && unchanged(store)
      ensures ListDraft(old(listInput), old(listIcon)).Some? ==>
                var data := ListDraft(old(listInput), old(listIcon)).value;
                && store.lists == old(store.lists) + [TodoList(id, data.name, data.icon, false, false)]
                && store.todos == old(store.todos) && store.activeList == old(store.activeList)
                && store.undoStack == old(store.undoStack) && store.redoStack == old(store.redoStack)
                && store.settings == old(store.settings) && store.statistics == old(store.statistics)
                && listInput == [] && listIcon == "📝" && !showListForm
                && input == old(input) && todoPriority == old(todoPriority)
    {
      var data := ListDraft(listInput, listIcon);
      if data.Some? {
        store.AddList(data.value, id);
        listInput := [];
        listIcon := "📝";
        showListForm := false;
      }
    }

    /**
     * `handleDragEnd`: without a destination nothing changes; otherwise the
     * store's todos are replaced by the reordered, reprioritized copy. The
     * indices come from the drag-and-drop library, which takes them from the
     * sorted view, and are applied to the whole todo array, as in the source.
     */
    method HandleDragEnd(source: nat, destination: Option<nat>)
      requires source < |store.todos|
      requires destination.Some? ==> destination.value < |store.todos|
      modifies store
      ensures destination.None? ==> unchanged(store)
      ensures destination.Some? ==>
                && store.todos == Reprioritized(Moved(old(store.todos), source, destination.value))
                && store.lists == old(store.lists) && store.activeList == old(store.activeList)
                && store.undoStack == old(store.undoStack) && store.redoStack == old(store.redoStack)
                && store.settings == old(store.settings) && store.statistics == old(store.statistics)
    {
      if destination.None? {
        return;
      }
      var updatedItems := Reorder(store.todos, source, destination.value);
      store.todos := updatedItems;
    }

    /**
     * `handleReset`: after the user confirms, the store holds the default list
     * only, no todos, empty stacks and zeroed statistics; the settings stay.
     */
    method HandleReset(confirmed: bool)
      modifies store
      ensures !confirmed ==> unchanged(store)
      ensures confirmed ==>
                && store.lists == InitialLists && store.todos == [] && store.activeList == 1
                && store.undoStack == [] && store.redoStack == []
                && store.statistics == ZeroStats && store.settings == old(store.settings)
                && store.Valid()
    {
      if confirmed {
        store.lists := InitialLists;
        store.todos := [];
        store.activeList := 1;
        store.undoStack := [];
        store.redoStack := [];
        store.statistics := ZeroStats;
      }
    }

    /** Clicking a list makes it the active one. */
    method SelectList(id: int)
      modifies store
      ensures store.activeList == id
      ensures store.lists == old(store.lists) && store.todos == old(store.todos)
      ensures store.undoStack == old(store.undoStack) && store.redoStack == old(store.redoStack)
      ensures store.settings == old(store.settings) && store.statistics == old(store.statistics)
    {
      store.activeList := id;
    }
  }
}
