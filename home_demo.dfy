/**
 * The page of src/components/home.tsx: the same list and busy flag as the
 * server-backed page, but the handlers change the list locally when a timer
 * fires instead of calling an API. Each handler runs in two steps: `Begin`
 * (the busy flag goes up at once) and a `Complete...` step (the timer
 * callback). The clock reading for a new id is a parameter.
 */
module HomeDemo {
  import opened Tasks
  import TaskStore

  /** `tasks.map((task) => task.id === id ? { ...task, completed: !task.completed } : task)`. */
  function ToggleAll(s: seq<Task>, id: string): (r: seq<Task>)
    ensures |r| == |s|
    ensures forall j :: 0 <= j < |s| ==> r[j] == if s[j].id == id then Flip(s[j]) else s[j]
  {
    if |s| == 0 then []
    else [if s[0].id == id then Flip(s[0]) else s[0]] + ToggleAll(s[1..], id)
  }

  /** Toggling the same id twice restores the list. */
  lemma {:induction false} ToggleAllTwice(s: seq<Task>, id: string)
    ensures ToggleAll(ToggleAll(s, id), id) == s
  {
    if |s| > 0 {
      var once := ToggleAll(s, id);
      assert once[1..] == ToggleAll(s[1..], id);
      ToggleAllTwice(s[1..], id);
    }
  }

  /** Toggling an id that is not in the list changes nothing. */
  lemma ToggleAllAbsent(s: seq<Task>, id: string)
    requires !HasId(s, id)
    ensures ToggleAll(s, id) == s
  {
    forall j | 0 <= j < |s| ensures s[j].id != id {
      assert s[j] in s;
    }
  }

  /**
   * With unique ids the local toggle flips the same single task the store's
   * `toggleComplete` flips; the two only differ when ids repeat.
   */
  lemma ToggleAllMatchesStore(s: seq<Task>, id: string)
    requires UniqueIds(s)
    ensures ToggleAll(s, id) == TaskStore.ToggleFirst(s, id)
  {
    if !HasId(s, id) {
      ToggleAllAbsent(s, id);
    }
  }

  /** Two tasks that share an id are both flipped locally, while the store flips only the first. */
  lemma DuplicateIdsDiverge()
    ensures var s := [Task("task-1", "a", false), Task("task-1", "b", false)];
            ToggleAll(s, "task-1") != TaskStore.ToggleFirst(s, "task-1")
  {
    var s := [Task("task-1", "a", false), Task("task-1", "b", false)];
    assert FirstIndex(s, "task-1") == Some(0);
    assert ToggleAll(s, "task-1")[1].completed;
  }

  class LocalHome {
    var tasks: seq<Task>
    var isLoading: bool

    /** The page starts with the five seeded tasks and is idle. */
    constructor ()
      ensures tasks == Seed() && !isLoading
    {
      tasks := Seed();
      isLoading := false;
    }

    /** `completedTasks`, shown in the header as "X of Y completed". */
    function CompletedTasks(): (n: nat)
      reads this
      ensures n <= |tasks|
      ensures n == 0 <==> forall j :: 0 <= j < |tasks| ==> !tasks[j].completed
    {
      CountCompleted(tasks)
    }

    /** The synchronous part of every handler: `setIsLoading(true)`. */
    method Begin()
      modifies this
      ensures isLoading && tasks == old(tasks)
    {
      isLoading := true;
    }

    /** `handleAddTask`'s timer callback: append `{id, text, completed: false}`, busy off. */
    method CompleteAddTask(text: string, now: nat) returns (newTask: Task)
      modifies this
      ensures newTask == Task(TaskId(now), text, false)
      ensures tasks == old(tasks) + [newTask]
      ensures !isLoading
    {
      newTask := Task(TaskId(now), text, false);
      tasks := tasks + [newTask];
      isLoading := false;
    }

    /** `handleToggleTask`'s timer callback: flip every task with that id, busy off. */
    method CompleteToggleTask(id: string)
      modifies this
      ensures tasks == ToggleAll(old(tasks), id)
      ensures !isLoading
    {
      tasks := ToggleAll(tasks, id);
      isLoading := false;
    }

    /**
     * `handleDeleteTask`'s timer callback: drop every task with that id, busy
     * off. Its catch branch (toast, busy off) cannot be reached: nothing in
     * the try block throws.
     */
    method CompleteDeleteTask(id: string)
      modifies this
      ensures tasks == RemoveId(old(tasks), id)
      ensures !isLoading
    {
      tasks := RemoveId(tasks, id);
      isLoading := false;
    }
  }
}
