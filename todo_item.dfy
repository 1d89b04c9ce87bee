/**
 * One row of the task list (src/components/TodoItem.js): how it prints the
 * time spent on a task, the start/stop time tracker it keeps in component
 * state, and the calls it makes into the store.
 *
 * The clock is a parameter: `now` stands for `Date.now()` in milliseconds.
 */
module TodoItem {
  import opened Wrappers
  import opened Js
  import opened Durations
  import opened TodoStore

  /**
   * `formatTimeSpent(seconds)`: "0m" for a missing or zero value, otherwise
   * the minutes, preceded by "<hours>h " when the hours are not zero.
   */
  function FormatTimeSpent(seconds: Option<int>): (r: string)
    ensures r != []
    ensures seconds.None? ==> r == "0m"
  {
    if seconds.None? || seconds.value == 0 then "0m"
    else
      var h, m := HoursOf(seconds.value), MinutesOf(seconds.value);
      (if h != 0 then IntToString(h) + "h " else "") + IntToString(m) + "m"
  }

  /**
   * For a non-negative number of seconds the text reads back as the seconds
   * rounded down to a whole minute, so the minutes shown are those left over
   * from the whole hours.
   */
  lemma FormatTimeSpentReadsBack(seconds: nat)
    ensures ReadDuration(FormatTimeSpent(Some(seconds))) == Some(seconds - seconds % 60)
  {
    FormatTimeSpentReadsParts(seconds);
    HoursAndMinutes(seconds);
  }

  /** The text reads back as its whole hours and minutes. */
  lemma FormatTimeSpentReadsParts(seconds: nat)
    ensures ReadDuration(FormatTimeSpent(Some(seconds))) == Some(3600 * HoursOf(seconds) + 60 * MinutesOf(seconds))
  {
    FormatTimeSpentShape(seconds);
    ReadText(FormatTimeSpent(Some(seconds)), HoursOf(seconds), MinutesOf(seconds));
  }

  /** Reading back a text of the formatter's shape for `h` hours and `m` minutes. */
  lemma ReadText(text: string, h: nat, m: nat)
    requires h != 0 ==> text == NatToString(h) + "h " + NatToString(m) + "m"
    requires h == 0 ==> text == NatToString(m) + "m"
    ensures ReadDuration(text) == Some(3600 * h + 60 * m)
  {
    if h != 0 {
      ReadHoursMinutes(h, m);
    } else {
      ReadMinutes(m);
    }
  }

  /** The text of a non-negative number of seconds, with its numerals written out. */
  lemma FormatTimeSpentShape(seconds: nat)
    ensures HoursOf(seconds) != 0 ==>
              FormatTimeSpent(Some(seconds)) == NatToString(HoursOf(seconds)) + "h " + NatToString(MinutesOf(seconds)) + "m"
    ensures HoursOf(seconds) == 0 ==> FormatTimeSpent(Some(seconds)) == NatToString(MinutesOf(seconds)) + "m"
  {
    if seconds == 0 {
      assert MinutesOf(0) == 0;
    }
  }

  /** The hours prefix appears exactly when there is at least one whole hour. */
  lemma FormatTimeSpentHours(seconds: nat)
    ensures 'h' in FormatTimeSpent(Some(seconds)) <==> seconds >= 3600
  {
    var h, m := HoursOf(seconds), MinutesOf(seconds);
    NoLetterInNumeral(NatToString(m), 'h');
    if seconds != 0 && h != 0 {
      var r := FormatTimeSpent(Some(seconds));
      assert r[|NatToString(h)|] == 'h';
    }
  }

  /** Less than a minute, and a missing value, both print as "0m". */
  lemma FormatTimeSpentUnderAMinute(seconds: Option<int>)
    requires seconds.None? || 0 <= seconds.value < 60
    ensures FormatTimeSpent(seconds) == "0m"
  {
  }

  /** The calls a row makes into the store. */
  datatype Call = Toggle(id: int) | Update(id: int, patch: Patch) | Delete(id: int)

  /** The checkbox's `onChange`: one `onToggle(todo.id)`. */
  function OnCheckbox(todo: Todo): (calls: seq<Call>)
    ensures |calls| == 1 && calls[0].Toggle? && calls[0].id == todo.id
  {
    [Toggle(todo.id)]
  }

  /**
   * The store's answer to the checkbox's call: the row's todo, when it is the
   * first with its id, changes its completion, and the others with other ids
   * are left alone.
   */
  lemma CheckboxFlipsCompletion(todos: seq<Todo>, k: nat, now: string)
    requires k < |todos|
    requires forall j :: 0 <= j < k ==> todos[j].id != todos[k].id
    ensures var r := Toggled(todos, OnCheckbox(todos[k])[0].id, now);
            && r[k].completed == !todos[k].completed
            && forall j :: 0 <= j < |todos| && todos[j].id != todos[k].id ==> r[j] == todos[j]
  {
    FindFirst(todos, todos[k].id, k);
  }

  /** Editing the text: `onUpdate(todo.id, { text })`. */
  function OnTextEdit(todo: Todo, text: string): (c: Call)
    ensures c.Update? && c.id == todo.id
    ensures c.patch.text == Some(text)
  {
    Update(todo.id, NoChange.(text := Some(text)))
  }

  /** Editing the notes: `onUpdate(todo.id, { notes })`. */
  function OnNotesEdit(todo: Todo, notes: string): (c: Call)
    ensures c.Update? && c.id == todo.id
    ensures c.patch.notes == Some(Some(notes))
  {
    Update(todo.id, NoChange.(notes := Some(Some(notes))))
  }

  /** A text edit replaces the text of the row's todo and nothing else. */
  lemma TextEditChangesOnlyText(todo: Todo, text: string)
    ensures OnTextEdit(todo, text).id == todo.id
    ensures Merge(todo, OnTextEdit(todo, text).patch) == todo.(text := text)
  {
  }

  /** A notes edit replaces the notes of the row's todo and nothing else. */
  lemma NotesEditChangesOnlyNotes(todo: Todo, notes: string)
    ensures OnNotesEdit(todo, notes).id == todo.id
    ensures Merge(todo, OnNotesEdit(todo, notes).patch) == todo.(notes := Some(notes))
  {
  }

  /**
   * The time spent after a tracking session from `start` to `stop`:
   * `(todo.timeSpent || 0) + Math.round((stop - start) / 1000)`.
   */
  function Accumulated(timeSpent: Option<int>, start: int, stop: int): (r: int)
    ensures 2000 * (r - timeSpent.GetOr(0)) <= 2 * (stop - start) + 1000 < 2000 * (r - timeSpent.GetOr(0) + 1)
    ensures start <= stop ==> r >= timeSpent.GetOr(0)
  {
    timeSpent.GetOr(0) + RoundDiv(stop - start, 1000)
  }

  /** With a clock that does not go back, a later stop never records less time. */
  lemma AccumulatedMonotone(timeSpent: Option<int>, start: int, stop: int, later: int)
    requires stop <= later
    ensures Accumulated(timeSpent, start, stop) <= Accumulated(timeSpent, start, later)
  {
  }

  /** The row's time tracker: the `timeTracking` and `startTime` component state. */
  class TimeTracker {
    var tracking: bool
    var startTime: Option<int>

    /** While tracking, a start time is recorded. */
    predicate Valid()
      reads this
    {
      tracking ==> startTime.Some?
    }

    constructor ()
      ensures Valid()
      ensures !tracking && startTime == None
    {
      tracking := false;
      startTime := None;
    }

    /**
     * `handleTimeTrack`: a press starts tracking at `now`; the next press stops
     * it and returns the `onUpdate` call that adds the session's rounded
     * seconds to the todo's time. The start time is left in place, as the
     * source does; `null` reads as 0 in the subtraction.
     */
    method HandleTimeTrack(todo: Todo, now: int) returns (call: Option<Call>)
      modifies this
      ensures Valid()
      ensures tracking == !old(tracking)
      ensures !old(tracking) ==> call == None && startTime == Some(now)
      ensures old(tracking) ==> startTime == old(startTime)
      ensures old(tracking) ==>
                call == Some(Update(todo.id, NoChange.(timeSpent := Some(Some(
                  Accumulated(todo.timeSpent, old(startTime).GetOr(0), now))))))
    {
      if !tracking {
        tracking := true;
        startTime := Some(now);
        call := None;
      } else {
        tracking := false;
        var start := startTime.GetOr(0);
        var spent := RoundDiv(now - start, 1000);
        call := Some(Update(todo.id, NoChange.(timeSpent := Some(Some(todo.timeSpent.GetOr(0) + spent)))));
      }
    }
  }

  /**
   * Two presses at `t0` and then `t1 >= t0`: the first only starts, the second
   * records at least the todo's previous time.
   */
  method TrackSessionScenario(todo: Todo, t0: int, t1: int) returns (first: Option<Call>, second: Option<Call>)
    requires t0 <= t1
    ensures first == None
    ensures second.Some? && second.value.Update? && second.value.id == todo.id
    ensures second.value.patch.timeSpent == Some(Some(Accumulated(todo.timeSpent, t0, t1)))
    ensures Accumulated(todo.timeSpent, t0, t1) >= todo.timeSpent.GetOr(0)
  {
    var tracker := new TimeTracker();
    first := tracker.HandleTimeTrack(todo, t0);
    second := tracker.HandleTimeTrack(todo, t1);
  }
}
