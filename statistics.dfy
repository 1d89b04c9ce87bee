/**
 * The progress panel (src/components/Statistics.js): completed and total
 * tasks, the completion rate in percent, the tasks completed today, the total
 * time spent and its "<h>h <m>m" display. All are folds over the todos.
 *
 * `isToday` stands for date-fns `isToday(new Date(completedAt))`.
 */
module Statistics {
  import opened Wrappers
  import opened Seqs
  import opened Js
  import opened Durations
  import opened TodoStore

  function IsCompleted(): Todo -> bool {
    (t: Todo) => t.completed
  }

  /** `t.completed && isToday(new Date(t.completedAt))`; a missing time is never today. */
  function DoneToday(isToday: string -> bool): Todo -> bool {
    (t: Todo) => t.completed && t.completedAt.Some? && isToday(t.completedAt.value)
  }

  /** `todos.filter(t => t.completed).length`. */
  function CompletedTasks(todos: seq<Todo>): (c: nat)
    ensures c <= |todos|
  {
    |Filter(todos, IsCompleted())|
  }

  /** No todo done counts 0; every todo done counts them all. */
  lemma CompletedTasksExtremes(todos: seq<Todo>)
    ensures (forall i :: 0 <= i < |todos| ==> !todos[i].completed) ==> CompletedTasks(todos) == 0
    ensures (forall i :: 0 <= i < |todos| ==> todos[i].completed) ==> CompletedTasks(todos) == |todos|
  {
    if forall i :: 0 <= i < |todos| ==> !todos[i].completed {
      FilterKeepsNone(todos, IsCompleted());
    }
    if forall i :: 0 <= i < |todos| ==> todos[i].completed {
      FilterKeepsAll(todos, IsCompleted());
    }
  }

  /**
   * `totalTasks ? Math.round(completedTasks / totalTasks * 100) : 0`, the
   * rounding written out on integers.
   */
  function CompletionRate(todos: seq<Todo>): (rate: nat)
    ensures |todos| == 0 ==> rate == 0
    ensures rate <= 100
    ensures |todos| > 0 ==>
              2 * |todos| * rate <= 200 * CompletedTasks(todos) + |todos| < 2 * |todos| * (rate + 1)
  {
    var c, t := CompletedTasks(todos), |todos|;
    if t == 0 then 0
    else
      RoundDivBounds(100 * c, t, 0, 100);
      RoundDiv(100 * c, t)
  }

  /** Everything done gives 100 percent, nothing done 0 percent. */
  lemma CompletionRateExtremes(todos: seq<Todo>)
    requires |todos| > 0
    ensures CompletedTasks(todos) == |todos| ==> CompletionRate(todos) == 100
    ensures CompletedTasks(todos) == 0 ==> CompletionRate(todos) == 0
  {
    var c, t := CompletedTasks(todos), |todos|;
    if c == t {
      RoundDivBounds(100 * c, t, 100, 100);
    }
    if c == 0 {
      RoundDivBounds(100 * c, t, 0, 0);
    }
  }

  /** `todos.filter(t => t.completed && isToday(...)).length`. */
  function CompletedToday(todos: seq<Todo>, isToday: string -> bool): (n: nat)
    ensures n <= CompletedTasks(todos)
  {
    FilterStronger(todos, DoneToday(isToday), IsCompleted());
    |Filter(todos, DoneToday(isToday))|
  }

  /** The todos counted today are exactly the completed ones whose completion time is today. */
  lemma CompletedTodayCounts(todos: seq<Todo>, isToday: string -> bool)
    ensures forall t :: t in Filter(todos, DoneToday(isToday)) <==>
              t in todos && t.completed && t.completedAt.Some? && isToday(t.completedAt.value)
  {
    FilterMembers(todos, DoneToday(isToday));
  }

  /** `todo.timeSpent || 0`. */
  function TimeOf(t: Todo): int {
    t.timeSpent.GetOr(0)
  }

  /** `todos.reduce((acc, todo) => acc + (todo.timeSpent || 0), acc)`. */
  function TotalFrom(acc: int, todos: seq<Todo>): (r: int)
    ensures (forall i :: 0 <= i < |todos| ==> TimeOf(todos[i]) >= 0) ==> r >= acc
    decreases |todos|
  {
    if todos == [] then acc else TotalFrom(acc + TimeOf(todos[0]), todos[1..])
  }

  /** `totalTimeSpent`: the fold started at 0. */
  function TotalTimeSpent(todos: seq<Todo>): (r: int)
    ensures todos == [] ==> r == 0
    ensures (forall i :: 0 <= i < |todos| ==> TimeOf(todos[i]) >= 0) ==> r >= 0
  {
    TotalFrom(0, todos)
  }

  /** The sum of the times, the last todo last: the reference the fold is checked against. */
  function SumOfTimes(todos: seq<Todo>): int {
    if todos == [] then 0 else SumOfTimes(todos[..|todos| - 1]) + TimeOf(todos[|todos| - 1])
  }

  /** The fold adds its start value to the sum of the times. */
  lemma {:induction false} TotalFromIsSum(acc: int, todos: seq<Todo>)
    ensures TotalFrom(acc, todos) == acc + SumOfTimes(todos)
    decreases |todos|
  {
    if todos != [] {
      TotalFromIsSum(acc + TimeOf(todos[0]), todos[1..]);
      SumOfTimesCons(todos[0], todos[1..]);
      assert [todos[0]] + todos[1..] == todos;
    }
  }

  /** Peeling off the first todo of the sum. */
  lemma {:induction false} SumOfTimesCons(h: Todo, t: seq<Todo>)
    ensures SumOfTimes([h] + t) == TimeOf(h) + SumOfTimes(t)
  {
    if t != [] {
      var s := [h] + t;
      assert s[..|s| - 1] == [h] + t[..|t| - 1];
      SumOfTimesCons(h, t[..|t| - 1]);
    }
  }

  /** The total of two groups of todos is the sum of their totals. */
  lemma TotalTimeSpentAppend(a: seq<Todo>, b: seq<Todo>)
    ensures TotalTimeSpent(a + b) == TotalTimeSpent(a) + TotalTimeSpent(b)
  {
    TotalFromIsSum(0, a + b);
    TotalFromIsSum(0, a);
    TotalFromIsSum(0, b);
    SumOfTimesAppend(a, b);
  }

  lemma {:induction false} SumOfTimesAppend(a: seq<Todo>, b: seq<Todo>)
    ensures SumOfTimes(a + b) == SumOfTimes(a) + SumOfTimes(b)
  {
    if b != [] {
      assert (a + b)[..|a + b| - 1] == a + b[..|b| - 1];
      SumOfTimesAppend(a, b[..|b| - 1]);
    } else {
      assert a + b == a;
    }
  }

  /** With no negative times the total is at least each todo's time. */
  lemma {:induction false} TotalTimeSpentBounds(todos: seq<Todo>)
    requires forall i :: 0 <= i < |todos| ==> TimeOf(todos[i]) >= 0
    ensures TotalTimeSpent(todos) >= 0
    ensures forall i :: 0 <= i < |todos| ==> TimeOf(todos[i]) <= TotalTimeSpent(todos)
  {
    TotalFromIsSum(0, todos);
    SumOfTimesBounds(todos);
  }

  lemma {:induction false} SumOfTimesBounds(todos: seq<Todo>)
    requires forall i :: 0 <= i < |todos| ==> TimeOf(todos[i]) >= 0
    ensures SumOfTimes(todos) >= 0
    ensures forall i :: 0 <= i < |todos| ==> TimeOf(todos[i]) <= SumOfTimes(todos)
  {
    if todos != [] {
      var init := todos[..|todos| - 1];
      SumOfTimesBounds(init);
      assert forall i :: 0 <= i < |init| ==> init[i] == todos[i];
    }
  }

  /** `formatTime(seconds)`: hours and minutes, the hours always shown. */
  function FormatTime(seconds: int): (r: string)
    ensures |r| >= 4 && r[|r| - 1] == 'm'
  {
    IntToString(HoursOf(seconds)) + "h " + IntToString(MinutesOf(seconds)) + "m"
  }

  /** The hours part is always there, even for less than an hour ("0h 5m"). */
  lemma FormatTimeShowsHours(seconds: int)
    ensures 'h' in FormatTime(seconds)
  {
    var r := FormatTime(seconds);
    assert r[|IntToString(HoursOf(seconds))|] == 'h';
  }

  /** The text of a non-negative total, with its numerals written out and the minutes below 60. */
  lemma FormatTimeShape(seconds: nat)
    ensures FormatTime(seconds) == NatToString(HoursOf(seconds)) + "h " + NatToString(MinutesOf(seconds)) + "m"
    ensures 0 <= MinutesOf(seconds) < 60
  {
  }

  /** For a non-negative total the text reads back as the total rounded down to a whole minute. */
  lemma FormatTimeReadsBack(seconds: nat)
    ensures ReadDuration(FormatTime(seconds)) == Some(seconds - seconds % 60)
  {
    HoursAndMinutes(seconds);
    ReadHoursMinutes(HoursOf(seconds), MinutesOf(seconds));
  }
}
