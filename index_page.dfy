/**
 * The page of src/pages/index.tsx: it holds the task list and a busy flag,
 * and its add, toggle and delete handlers each call the HTTP API and merge
 * the server's answer into the list. Each handler runs in two steps split
 * by its `await`: `Begin` (the busy flag goes up) and a `Complete...` step
 * that receives what the awaited `fetch` produced.
 */
module IndexPage {
  import opened Tasks
  import TaskStore
  import TasksApi
  import TaskForm

  /** What an awaited `fetch` produced: a 2xx response with its parsed body, or anything else (non-2xx or a thrown error). */
  datatype Fetched<T> = Ok(body: T) | Failed

  const AddFailed := "Failed to add task. Please try again."
  const UpdateFailed := "Failed to update task. Please try again."
  const DeleteFailed := "Failed to delete task. Please try again."

  /** `tasks.map((task) => (task.id === id ? updatedTask : task))`. */
  function ReplaceById(s: seq<Task>, id: string, updated: Task): (r: seq<Task>)
    ensures |r| == |s|
    ensures forall j :: 0 <= j < |s| ==> r[j] == if s[j].id == id then updated else s[j]
  {
    if |s| == 0 then []
    else [if s[0].id == id then updated else s[0]] + ReplaceById(s[1..], id, updated)
  }

  /** Replacing by an id that is not in the list changes nothing. */
  lemma ReplaceAbsentId(s: seq<Task>, id: string, updated: Task)
    requires !HasId(s, id)
    ensures ReplaceById(s, id, updated) == s
  {
    forall j | 0 <= j < |s| ensures s[j].id != id {
      assert s[j] in s;
    }
  }

  /**
   * When the page's list equals the store's and ids are unique, merging the
   * task the toggle route returns gives exactly the store's new list.
   */
  lemma ToggleReconciles(s: seq<Task>, id: string)
    requires UniqueIds(s)
    requires HasId(s, id)
    ensures ReplaceById(s, id, Find(TaskStore.ToggleFirst(s, id), id).value) == TaskStore.ToggleFirst(s, id)
  {
    var k := FirstIndex(s, id).value;
    var after := TaskStore.ToggleFirst(s, id);
    FirstIndexSameIds(s, after, id);
    assert Find(after, id).value == Flip(s[k]);
  }

  /** The request body `handleAddTask` posts: `{ title: text }`. */
  function AddRequest(text: string): (req: TasksApi.Request)
    ensures text != "" ==> TasksApi.Dispatch(req) == TasksApi.CreateTask(text)
    ensures text == "" ==> TasksApi.Dispatch(req) == TasksApi.Reply(TasksApi.BadTitle)
  {
    TasksApi.Request("POST", TasksApi.Fields(TasksApi.Str(text)))
  }

  class Home {
    var tasks: seq<Task>
    var isLoading: bool
    /** Descriptions of the destructive toasts shown so far, oldest first. */
    var toasts: seq<string>

    constructor (initialTasks: seq<Task>)
      ensures tasks == initialTasks && !isLoading && toasts == []
    {
      tasks := initialTasks;
      isLoading := false;
      toasts := [];
    }

    /** `completedTasks`, shown in the header as "X of Y completed". */
    function CompletedTasks(): (n: nat)
      reads this
      ensures n <= |tasks|
      ensures n == |tasks| <==> forall j :: 0 <= j < |tasks| ==> tasks[j].completed
    {
      CountCompleted(tasks)
    }

    /** `showErrorToast`. */
    method ShowErrorToast(message: string)
      modifies this
      ensures toasts == old(toasts) + [message]
      ensures tasks == old(tasks) && isLoading == old(isLoading)
    {
      toasts := toasts + [message];
    }

    /** The part of every handler that runs before its `await`: `setIsLoading(true)`. */
    method Begin()
      modifies this
      ensures isLoading
      ensures tasks == old(tasks) && toasts == old(toasts)
    {
      isLoading := true;
    }

    /** `handleAddTask` after the POST settles: append the server's task, or toast; busy off either way. */
    method CompleteAddTask(response: Fetched<Task>)
      modifies this
      ensures !isLoading
      ensures response.Ok? ==> tasks == old(tasks) + [response.body] && toasts == old(toasts)
      ensures response.Failed? ==> tasks == old(tasks) && toasts == old(toasts) + [AddFailed]
    {
      match response {
        case Ok(newTask) =>
          tasks := tasks + [newTask];
        case Failed =>
          ShowErrorToast(AddFailed);
      }
      isLoading := false;
    }

    /** `handleToggleTask` after the PUT settles: replace every task with that id by the server's copy, or toast. */
    method CompleteToggleTask(id: string, response: Fetched<Task>)
      modifies this
      ensures !isLoading
      ensures response.Ok? ==> tasks == ReplaceById(old(tasks), id, response.body) && toasts == old(toasts)
      ensures response.Failed? ==> tasks == old(tasks) && toasts == old(toasts) + [UpdateFailed]
    {
      match response {
        case Ok(updatedTask) =>
          tasks := ReplaceById(tasks, id, updatedTask);
        case Failed =>
          ShowErrorToast(UpdateFailed);
      }
      isLoading := false;
    }

    /** `handleDeleteTask` after the DELETE settles: drop every task with that id, or toast. */
    method CompleteDeleteTask(id: string, ok: bool)
      modifies this
      ensures !isLoading
      ensures ok ==> tasks == RemoveId(old(tasks), id) && toasts == old(toasts)
      ensures !ok ==> tasks == old(tasks) && toasts == old(toasts) + [DeleteFailed]
    {
      if ok {
        tasks := RemoveId(tasks, id);
      } else {
        ShowErrorToast(DeleteFailed);
      }
      isLoading := false;
    }
  }

  /**
   * Adding a task end to end, with the page's list in step with the store:
   * the POST of `text` reaches the route, the route creates the task, and the
   * page appends the 201 body, so page and store agree again and the busy
   * flag is down.
   */
  method AddThroughApi(page: Home, store: TaskStore.Store, text: string, now: nat)
    requires page.tasks == store.tasks
    requires text != ""
    modifies page, store
    ensures page.tasks == store.tasks
    ensures page.tasks == old(page.tasks) + [Task(TaskId(now), text, false)]
    ensures !page.isLoading && page.toasts == old(page.toasts)
  {
    page.Begin();
    var res := TasksApi.Handle(AddRequest(text), store, now, false);
    page.CompleteAddTask(Ok(res.body.task));
  }

  /**
   * The form wired to the page (`<TaskForm onAddTask={handleAddTask} ...>`):
   * a blank field never reaches the API, and a submitted text is always a
   * title the route accepts, so it is created and both lists gain the same
   * task with the trimmed text.
   */
  method SubmitThroughApi(form: TaskForm.Form, page: Home, store: TaskStore.Store, now: nat)
    returns (added: Option<string>)
    requires page.tasks == store.tasks
    modifies form, page, store
    ensures page.tasks == store.tasks
    ensures added.None? ==> page.tasks == old(page.tasks) && form.taskText == old(form.taskText)
    ensures added.None? ==> page.isLoading == old(page.isLoading) && page.toasts == old(page.toasts)
    ensures added.Some? ==> page.toasts == old(page.toasts)
    ensures added.Some? ==> added.value == TaskForm.Trim(old(form.taskText)) && form.taskText == "" &&
                            page.tasks == old(page.tasks) + [Task(TaskId(now), added.value, false)] &&
                            !page.isLoading
  {
    added := form.HandleSubmit();
    if added.Some? {
      AddThroughApi(page, store, added.value, now);
    }
  }
}
