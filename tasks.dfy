/**
 * The focus task list: the stored tasks and the text of the input box.
 */
module Tasks {
  import opened JsText

  /** The tasks state and the pending input (newTask). */
  datatype TaskState = TaskState(tasks: seq<string>, newTask: string)

  const InitialTasks: TaskState := TaskState([], "")

  /**
   * addTask: when the input has a non-whitespace character it is appended
   * as entered (untrimmed) and the input is cleared; otherwise nothing
   * changes.
   */
  function AddTask(st: TaskState): (r: TaskState)
    ensures HasVisibleText(st.newTask) ==> r.tasks == st.tasks + [st.newTask] && r.newTask == ""
    ensures !HasVisibleText(st.newTask) ==> r == st
  {
    TrimEmptyIff(st.newTask);
    if Trim(st.newTask) != "" then TaskState(st.tasks + [st.newTask], "") else st
  }

  /**
   * removeTask: filter((_, i) => i !== index), written as the filter it is,
   * keeping each element whose position differs from index.
   */
  function RemoveTask(tasks: seq<string>, index: int): (r: seq<string>)
    ensures 0 <= index < |tasks| ==> r == tasks[..index] + tasks[index + 1..]
    ensures !(0 <= index < |tasks|) ==> r == tasks
    decreases |tasks|
  {
    if tasks == [] then []
    else
      var last := |tasks| - 1;
      var kept := RemoveTask(tasks[..last], index);
      assert 0 <= index < last ==> kept + [tasks[last]] == tasks[..index] + tasks[index + 1..];
      assert tasks[..last] + [tasks[last]] == tasks;
      kept + (if last != index then [tasks[last]] else [])
  }

  /** Removing a position keeps the relative order: the others move down by one. */
  lemma RemoveTaskShifts(tasks: seq<string>, index: int)
    requires 0 <= index < |tasks|
    ensures |RemoveTask(tasks, index)| == |tasks| - 1
    ensures forall j :: 0 <= j < |tasks| - 1 ==>
              RemoveTask(tasks, index)[j] == if j < index then tasks[j] else tasks[j + 1]
  {
  }

  /** The removed task is the only one missing afterwards. */
  lemma RemoveTaskMultiset(tasks: seq<string>, index: int)
    requires 0 <= index < |tasks|
    ensures multiset(RemoveTask(tasks, index)) + multiset{tasks[index]} == multiset(tasks)
  {
    MultisetWithout(tasks, index);
  }

  lemma MultisetWithout<T>(s: seq<T>, k: nat)
    requires k < |s|
    ensures multiset(s[..k] + s[k + 1..]) + multiset{s[k]} == multiset(s)
  {
    var front, rest, back := s[..k], s[k..], s[k + 1..];
    assert s == front + rest;
    assert rest == [s[k]] + back;
    assert multiset(rest) == multiset{s[k]} + multiset(back);
    assert multiset(s) == multiset(front) + multiset(rest);
  }

  /** Removing the newly added entry gives back the list before it. */
  lemma AddThenRemove(st: TaskState)
    requires HasVisibleText(st.newTask)
    ensures RemoveTask(AddTask(st).tasks, |st.tasks|) == st.tasks
  {
  }

  /** What the user can do to the list: type into the box, add, remove by position. */
  datatype TaskAction = Type(text: string) | Add | Remove(index: int)

  function ApplyAction(st: TaskState, a: TaskAction): TaskState
  {
    match a
    case Type(text) => st.(newTask := text)
    case Add => AddTask(st)
    case Remove(index) => st.(tasks := RemoveTask(st.tasks, index))
  }

  function RunActions(st: TaskState, actions: seq<TaskAction>): TaskState
    decreases |actions|
  {
    if actions == [] then st else RunActions(ApplyAction(st, actions[0]), actions[1..])
  }

  /** Every stored task has a non-whitespace character. */
  predicate AllVisible(tasks: seq<string>)
  {
    forall i :: 0 <= i < |tasks| ==> HasVisibleText(tasks[i])
  }

  lemma ApplyKeepsVisible(st: TaskState, a: TaskAction)
    requires AllVisible(st.tasks)
    ensures AllVisible(ApplyAction(st, a).tasks)
  {
    match a
    case Type(_) =>
    case Add =>
      if HasVisibleText(st.newTask) {
        AppendKeepsVisible(st.tasks, st.newTask);
      }
    case Remove(index) =>
      if 0 <= index < |st.tasks| {
        RemoveKeepsVisible(st.tasks, index);
      }
  }

  lemma AppendKeepsVisible(tasks: seq<string>, t: string)
    requires AllVisible(tasks) && HasVisibleText(t)
    ensures AllVisible(tasks + [t])
  {
    var ts := tasks + [t];
    forall i | 0 <= i < |ts|
      ensures HasVisibleText(ts[i])
    {
      if i < |tasks| {
        assert ts[i] == tasks[i];
      } else {
        assert ts[i] == t;
      }
    }
  }

  lemma RemoveKeepsVisible(tasks: seq<string>, index: int)
    requires AllVisible(tasks) && 0 <= index < |tasks|
    ensures AllVisible(RemoveTask(tasks, index))
  {
    var r := RemoveTask(tasks, index);
    RemoveTaskShifts(tasks, index);
    forall j | 0 <= j < |r|
      ensures HasVisibleText(r[j])
    {
      if j < index {
        assert r[j] == tasks[j];
      } else {
        assert r[j] == tasks[j + 1];
      }
    }
  }

  /** Whatever the user does, no blank task is ever stored. */
  lemma {:induction false} RunKeepsVisible(st: TaskState, actions: seq<TaskAction>)
    requires AllVisible(st.tasks)
    ensures AllVisible(RunActions(st, actions).tasks)
    decreases |actions|
  {
    if actions != [] {
      ApplyKeepsVisible(st, actions[0]);
      RunKeepsVisible(ApplyAction(st, actions[0]), actions[1..]);
    }
  }

  lemma ReachableTasksVisible(actions: seq<TaskAction>)
    ensures AllVisible(RunActions(InitialTasks, actions).tasks)
  {
    RunKeepsVisible(InitialTasks, actions);
  }

  /** "  " is rejected. */
  lemma AddBlankExample()
    ensures AddTask(TaskState([], "  ")) == TaskState([], "  ")
  {
  }

  /** "  buy milk  " is stored with its spaces. */
  lemma AddUntrimmedExample()
    ensures AddTask(TaskState([], "  buy milk  ")) == TaskState(["  buy milk  "], "")
  {
  }

  /** Removing position 1 from a, b, c gives a, c. */
  lemma RemoveExample()
    ensures RemoveTask(["a", "b", "c"], 1) == ["a", "c"]
  {
  }
}
