/**
 * The to-do script: a shared list of tasks, each a title with subtasks,
 * changed in place by `update` and `delete`. Both ignore an index outside
 * the list.
 */
module Tasks {
  import opened Wrappers

  /** A `{title, subtasks}` record. */
  datatype Task = Task(title: string, subtasks: seq<string>)

  /** Python's `if title:` for a string or `None`: only a non-empty string is truthy. */
  predicate Truthy(title: Option<string>) {
    title.Some? && title.value != ""
  }

  /** Whether `index` names an entry, by the script's `0 <= index < len(tasks)` test. */
  predicate InRange(tasks: seq<Task>, index: int) {
    0 <= index < |tasks|
  }

  /** One record after `update`'s two assignments. */
  function UpdatedTask(t: Task, title: Option<string>, subtasks: Option<seq<string>>): (r: Task)
    ensures r.title == (if Truthy(title) then title.value else t.title)
    ensures r.subtasks == (if subtasks.Some? then subtasks.value else t.subtasks)
  {
    var t' := if Truthy(title) then t.(title := title.value) else t;
    if subtasks.Some? then t'.(subtasks := subtasks.value) else t'
  }

  /** The list after `update(index, title, subtasks)`. */
  function Updated(tasks: seq<Task>, index: int, title: Option<string>, subtasks: Option<seq<string>>): (r: seq<Task>)
    ensures |r| == |tasks|
    ensures forall j :: 0 <= j < |tasks| && j != index ==> r[j] == tasks[j]
    ensures !InRange(tasks, index) ==> r == tasks
    ensures InRange(tasks, index) ==> r[index] == UpdatedTask(tasks[index], title, subtasks)
  {
    if InRange(tasks, index) then tasks[index := UpdatedTask(tasks[index], title, subtasks)] else tasks
  }

  /** The list after `delete(index)`. */
  function Removed(tasks: seq<Task>, index: int): (r: seq<Task>)
    ensures !InRange(tasks, index) ==> r == tasks
    ensures InRange(tasks, index) ==>
      && |r| == |tasks| - 1
      && (forall j :: 0 <= j < index ==> r[j] == tasks[j])
      && (forall j :: index <= j < |r| ==> r[j] == tasks[j + 1])
      && multiset(r) + multiset{tasks[index]} == multiset(tasks)
  {
    if InRange(tasks, index) then
      assert tasks == tasks[..index] + [tasks[index]] + tasks[index + 1..];
      tasks[..index] + tasks[index + 1..]
    else tasks
  }

  /** The shared list the script's functions work on. */
  class TaskList {
    var tasks: seq<Task>

    constructor (initial: seq<Task>)
      ensures tasks == initial
    {
      tasks := initial;
    }

    /** `update(index, title=None, subtasks=None)`. */
    method Update(index: int, title: Option<string>, subtasks: Option<seq<string>>)
      modifies this
      ensures tasks == Updated(old(tasks), index, title, subtasks)
    {
      if 0 <= index < |tasks| {
        if title.Some? && title.value != "" {
          tasks := tasks[index := tasks[index].(title := title.value)];
        }
        if subtasks.Some? {
          tasks := tasks[index := tasks[index].(subtasks := subtasks.value)];
        }
      }
    }

    /** `delete(index)`: `tasks.pop(index)` for an index in range. */
    method Delete(index: int)
      modifies this
      ensures tasks == Removed(old(tasks), index)
    {
      if 0 <= index < |tasks| {
        tasks := tasks[..index] + tasks[index + 1..];
      }
    }
  }

  /** Neither a falsy title nor a missing subtask list changes anything. */
  lemma UpdateWithNothingIsNoOp(tasks: seq<Task>, index: int, title: Option<string>)
    requires !Truthy(title)
    ensures Updated(tasks, index, title, None) == tasks
  {
    if InRange(tasks, index) {
      assert tasks[index := tasks[index]] == tasks;
    }
  }

  /** An empty subtask list still replaces the old one. */
  lemma UpdateClearsSubtasks(tasks: seq<Task>, index: int)
    requires InRange(tasks, index)
    ensures Updated(tasks, index, None, Some([]))[index] == Task(tasks[index].title, [])
  {
  }

  /** Repeating an update changes nothing more. */
  lemma UpdateIdempotent(tasks: seq<Task>, index: int, title: Option<string>, subtasks: Option<seq<string>>)
    ensures var once := Updated(tasks, index, title, subtasks);
      Updated(once, index, title, subtasks) == once
  {
    var once := Updated(tasks, index, title, subtasks);
    if InRange(tasks, index) {
      assert UpdatedTask(once[index], title, subtasks) == once[index];
      assert once[index := once[index]] == once;
    }
  }

  /** Updates of two different entries commute. */
  lemma UpdatesOfDistinctEntriesCommute(tasks: seq<Task>, i: int, j: int,
                                         t1: Option<string>, s1: Option<seq<string>>,
                                         t2: Option<string>, s2: Option<seq<string>>)
    requires i != j
    ensures Updated(Updated(tasks, i, t1, s1), j, t2, s2) == Updated(Updated(tasks, j, t2, s2), i, t1, s1)
  {
  }

  /** Deleting an entry forgets any update made to it. */
  lemma DeleteForgetsUpdate(tasks: seq<Task>, index: int, title: Option<string>, subtasks: Option<seq<string>>)
    ensures Removed(Updated(tasks, index, title, subtasks), index) == Removed(tasks, index)
  {
  }

  /** Deleting a position past the end, or a negative one, leaves the list alone. */
  lemma DeleteOutOfRangeIsNoOp(tasks: seq<Task>, index: int)
    requires index < 0 || index >= |tasks|
    ensures Removed(tasks, index) == tasks
  {
  }

  /**
   * The script's calls: give the second task two subtasks, then delete the
   * first; what remains is the second task with its new subtasks.
   */
  lemma ScriptCalls(studySubtasks: seq<string>)
    ensures var start := [Task("Buy groceries", ["Milk", "Eggs"]), Task("Study Python", studySubtasks)];
      var updated := Updated(start, 1, None, Some(["Read book", "Practice"]));
      Removed(updated, 0) == [Task("Study Python", ["Read book", "Practice"])]
  {
  }
}
