/**
 * The collection route of src/pages/api/tasks/index.ts: GET lists the
 * tasks, POST validates `title` and creates a task, any other method is
 * refused, and anything the handler throws becomes a 500.
 */
module TasksApi {
  import opened Tasks
  import TaskStore

  /** The JavaScript value found under `title` in the parsed request body, as far as the handler can tell them apart. */
  datatype JsonValue =
    | Undefined
    | Null
    | Bool(b: bool)
    | Number(n: int)
    | Str(s: string)
    | Composite  // an array or an object: truthy, and not a string

  /** `req.body`: nothing (null or undefined), or a value whose `title` property is read. */
  datatype Body = Nullish | Fields(title: JsonValue)

  /** `req.method` and `req.body`. */
  datatype Request = Request(verb: string, body: Body)

  datatype Payload = TaskList(tasks: seq<Task>) | Created(task: Task) | Error(message: string)

  datatype Response = Response(status: int, body: Payload)

  const BadTitle := Response(400, Error("Title is required and must be a string"))
  const NotAllowed := Response(405, Error("Method not allowed"))
  const ServerError := Response(500, Error("Internal server error"))

  /** JavaScript's `!v`: undefined, null, false, 0 and the empty string. */
  predicate Falsy(v: JsonValue)
    ensures v.Str? ==> (Falsy(v) <==> v.s == "")
    ensures v.Composite? || v == Bool(true) ==> !Falsy(v)
  {
    v.Undefined? || v.Null? || v == Bool(false) || v == Number(0) || v == Str("")
  }

  /** JavaScript's `typeof v === "string"`: among the strings only `""` is falsy. */
  predicate IsString(v: JsonValue)
    ensures IsString(v) ==> (Falsy(v) <==> v == Str(""))
  {
    v.Str?
  }

  /** A title the handler accepts: exactly what passes `!title || typeof title !== "string"`. */
  predicate ValidTitle(v: JsonValue)
    ensures ValidTitle(v) <==> !(Falsy(v) || !IsString(v))
  {
    v.Str? && v.s != ""
  }

  /** What the handler goes on to do once it has looked at the method and the body. */
  datatype Action = ListTasks | CreateTask(title: string) | Reply(response: Response)

  /**
   * The decision part of the handler. Destructuring a null or undefined body
   * throws, which the handler's catch turns into a 500.
   */
  function Dispatch(req: Request): (a: Action)
    ensures a == ListTasks <==> req.verb == "GET"
    ensures a.CreateTask? <==> req.verb == "POST" && req.body.Fields? && ValidTitle(req.body.title)
    ensures a.CreateTask? ==> req.body.Fields? && a.title == req.body.title.s && a.title != ""
    ensures a == Reply(BadTitle) <==> req.verb == "POST" && req.body.Fields? && !ValidTitle(req.body.title)
    ensures a == Reply(ServerError) <==> req.verb == "POST" && req.body.Nullish?
    ensures a == Reply(NotAllowed) <==> req.verb != "GET" && req.verb != "POST"
  {
    if req.verb == "GET" then ListTasks
    else if req.verb == "POST" then
      match req.body
      case Nullish => Reply(ServerError)
      case Fields(title) =>
        if Falsy(title) || !IsString(title) then Reply(BadTitle) else CreateTask(title.s)
    else Reply(NotAllowed)
  }

  /**
   * The handler run against a store. `raises` says whether the store call the
   * chosen branch makes throws; `now` is the clock reading `create` uses.
   */
  method Handle(req: Request, store: TaskStore.Store, now: nat, raises: bool) returns (res: Response)
    modifies store
    ensures Dispatch(req) == ListTasks ==>
              store.tasks == old(store.tasks) &&
              res == if raises then ServerError else Response(200, TaskList(old(store.tasks)))
    ensures Dispatch(req).CreateTask? && raises ==>
              store.tasks == old(store.tasks) && res == ServerError
    ensures Dispatch(req).CreateTask? && !raises ==>
              var t := Task(TaskId(now), Dispatch(req).title, false);
              res == Response(201, Created(t)) && store.tasks == old(store.tasks) + [t]
    ensures Dispatch(req).Reply? ==> store.tasks == old(store.tasks) && res == Dispatch(req).response
  {
    match Dispatch(req)
    case ListTasks =>
      if raises {
        res := ServerError;
      } else {
        var tasks := store.GetAll();
        res := Response(200, TaskList(tasks));
      }
    case CreateTask(title) =>
      if raises {
        res := ServerError;
      } else {
        var newTask := store.Create(now, title);
        res := Response(201, Created(newTask));
      }
    case Reply(response) =>
      res := response;
  }

  /** A POST whose body has no `title` is refused with 400. */
  lemma EmptyBodyRejected()
    ensures Dispatch(Request("POST", Fields(Undefined))) == Reply(BadTitle)
  {
  }
}
