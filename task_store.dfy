/**
 * The in-memory task store of src/lib/db-browser.ts: a module-level list of
 * tasks with getAll, getById, create, toggleComplete and delete. The list is
 * the `tasks` field of a `Store` object; the clock reading that `create` uses
 * for the new id is a parameter.
 */
module TaskStore {
  import opened Tasks

  /** The list after `toggleComplete(id)`: the first task with that id flipped. */
  function ToggleFirst(s: seq<Task>, id: string): (r: seq<Task>)
    ensures |r| == |s|
    ensures forall j :: 0 <= j < |s| ==> r[j].id == s[j].id && r[j].title == s[j].title
    ensures !HasId(s, id) ==> r == s
    ensures HasId(s, id) ==>
              exists k :: 0 <= k < |s| && s[k].id == id && (forall j :: 0 <= j < k ==> s[j].id != id) &&
                          r[k] == Flip(s[k]) && forall j :: 0 <= j < |s| && j != k ==> r[j] == s[j]
  {
    match FirstIndex(s, id)
    case None => s
    case Some(k) => s[k := Flip(s[k])]
  }

  /** Toggling the same id twice restores the list. */
  lemma ToggleFirstTwice(s: seq<Task>, id: string)
    ensures ToggleFirst(ToggleFirst(s, id), id) == s
  {
    var once := ToggleFirst(s, id);
    FirstIndexSameIds(s, once, id);
  }

  /** Toggling a present id moves the completed count by exactly one, in the direction of the new flag. */
  lemma ToggleFirstCount(s: seq<Task>, id: string)
    requires HasId(s, id)
    ensures Find(ToggleFirst(s, id), id).Some?
    ensures var t := Find(ToggleFirst(s, id), id).value;
            CountCompleted(ToggleFirst(s, id)) == if t.completed then CountCompleted(s) + 1 else CountCompleted(s) - 1
  {
    var k := FirstIndex(s, id).value;
    var r := ToggleFirst(s, id);
    FirstIndexSameIds(s, r, id);
    CountCompletedUpdate(s, k, Flip(s[k]));
  }

  class Store {
    var tasks: seq<Task>

    /** The module starts out holding the five seeded tasks. */
    constructor ()
      ensures tasks == Seed()
    {
      tasks := Seed();
    }

    /** `getAll`: a copy of the list, in order; the store is left alone. */
    method GetAll() returns (r: seq<Task>)
      ensures r == tasks
    {
      r := tasks;
    }

    /** Where the object `getById` hands out lives: a left-to-right scan for the first match. */
    method Locate(id: string) returns (k: Option<nat>)
      ensures k == FirstIndex(tasks, id)
    {
      var i := 0;
      while i < |tasks| && tasks[i].id != id
        invariant 0 <= i <= |tasks|
        invariant forall j :: 0 <= j < i ==> tasks[j].id != id
      {
        i := i + 1;
      }
      if i < |tasks| {
        FirstIndexUnique(tasks, id, i);
        k := Some(i);
      } else {
        k := None;
      }
    }

    /** `getById`: the first task whose id is `id`, or nothing. */
    method GetById(id: string) returns (r: Option<Task>)
      ensures r == Find(tasks, id)
      ensures r.None? <==> !HasId(tasks, id)
      ensures r.Some? ==> r.value.id == id && r.value in tasks
    {
      var k := Locate(id);
      match k
      case None => r := None;
      case Some(i) => r := Some(tasks[i]);
    }

    /**
     * `create`: appends `{id, title, completed: false}` with the id taken from
     * the clock, and returns it. Whether the id is already in use is not checked.
     */
    method Create(now: nat, title: string) returns (t: Task)
      modifies this
      ensures t == Task(TaskId(now), title, false)
      ensures tasks == old(tasks) + [t]
    {
      t := Task(TaskId(now), title, false);
      tasks := tasks + [t];
    }

    /**
     * `toggleComplete`: negates the flag of the first task with that id and
     * returns a copy of it; an unknown id yields nothing and changes nothing.
     */
    method ToggleComplete(id: string) returns (r: Option<Task>)
      modifies this
      ensures tasks == ToggleFirst(old(tasks), id)
      ensures r.None? <==> !HasId(old(tasks), id)
      ensures r.None? ==> tasks == old(tasks)
      ensures r.Some? ==> r == Find(tasks, id) && r.value.completed == !Find(old(tasks), id).value.completed
    {
      var k := Locate(id);
      match k
      case None =>
        r := None;
      case Some(i) =>
        ghost var before := tasks;
        tasks := tasks[i := Flip(tasks[i])];
        FirstIndexSameIds(before, tasks, id);
        r := Some(tasks[i]);
    }

    /**
     * `delete`: keeps only the tasks whose id differs, and reports whether
     * the list got shorter.
     */
    method Delete(id: string) returns (removed: bool)
      modifies this
      ensures tasks == RemoveId(old(tasks), id)
      ensures removed <==> |tasks| < |old(tasks)|
      ensures removed <==> HasId(old(tasks), id)
      ensures Find(tasks, id).None?
    {
      var initialLength := |tasks|;
      tasks := RemoveId(tasks, id);
      removed := |tasks| < initialLength;
    }
  }

  /**
   * Deleting an id twice: the second call reports false and leaves the
   * store as the first call left it.
   */
  method DeleteTwice(store: Store, id: string) returns (first: bool, second: bool)
    modifies store
    ensures first <==> HasId(old(store.tasks), id)
    ensures !second
    ensures store.tasks == RemoveId(old(store.tasks), id)
  {
    first := store.Delete(id);
    RemoveIdTwice(old(store.tasks), id);
    second := store.Delete(id);
  }
}
