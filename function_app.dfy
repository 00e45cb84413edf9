/**
 * The HTTP endpoints. Every response is JSON and carries the same CORS headers.
 * The task endpoints go through the generic repository; the goal, habit and project
 * endpoints have one shape each for list, create, update and delete, and their
 * repository answers are parameters because their models are not part of this model.
 * A request is its query parameters (`params`), its route id and its body, where a
 * body that is not valid JSON is `None`.
 */
module Handlers {
  import opened Wrappers
  import opened IsoTime
  import opened Values
  import opened Store
  import opened Ordering
  import opened Models
  import opened GenericRepo

  /** The JSON bodies the endpoints write. */
  datatype Body =
    | ErrorBody(error: string)
    | MessageBody(message: string)
    | TaskList(tasks: seq<Task>)
    | TaskBody(task: Task)
    | RecordList(items: seq<Record>)
    | RecordBody(item: Record)
    | HealthBody(status: string, timestamp: string, service: string)
    | EmptyBody

  datatype Response = Response(status: int, body: Body, mimetype: string, headers: map<string, string>)

  const CorsHeaders: map<string, string> := map[
    "Access-Control-Allow-Origin" := "*",
    "Access-Control-Allow-Methods" := "GET, POST, PUT, DELETE, OPTIONS",
    "Access-Control-Allow-Headers" := "Content-Type, Authorization"]

  const UserRequired: string := "user_id parameter is required"
  const InvalidJson: string := "Invalid JSON in request body"
  const InternalError: string := "Internal server error"
  const TaskNotFound: string := "Task not found"

  /** `create_cors_response`. */
  function Cors(body: Body, status: int): Response
  {
    Response(status, body, "application/json", CorsHeaders)
  }

  /** A response as `create_cors_response` builds it: JSON, with the three CORS headers. */
  predicate IsCors(r: Response)
  {
    r.mimetype == "application/json" && r.headers == CorsHeaders
  }

  /** A query parameter; absent reads as the empty string, which Python's `if not x` also rejects. */
  function Param(params: map<string, string>, k: string): string
  {
    if k in params then params[k] else ""
  }

  /** The `user_id` query parameter, when present and non-empty. */
  function UserParam(params: map<string, string>): Option<string>
  {
    if Param(params, "user_id") == "" then None else Some(params["user_id"])
  }

  /** `health_check`: `now` is its clock read. */
  function HealthCheck(now: Instant): (r: Response)
    ensures r.status == 200 && IsCors(r)
    ensures r.body.HealthBody? && r.body.status == "healthy" && r.body.service == "1TaskAssistant API"
    ensures FromIsoFormat(r.body.timestamp) == Some(now)
  {
    IsoRoundTrip(now);
    Cors(HealthBody("healthy", IsoFormat(now), "1TaskAssistant API"), 200)
  }

  /** The CORS preflight answer shared by the three `OPTIONS` routes. */
  function Preflight(): (r: Response)
    ensures r.status == 200 && r.body == EmptyBody && IsCors(r)
  {
    Cors(EmptyBody, 200)
  }

  // ---------------------------------------------------------------------------
  // Task filters
  // ---------------------------------------------------------------------------

  /**
   * `[task for task in tasks if p(task)]`: the tasks that pass, in their order, each as
   * often as it occurs in `ts`.
   */
  function KeepTasks(ts: seq<Task>, p: Task -> bool): (r: seq<Task>)
    ensures |r| <= |ts|
    ensures forall t :: t in r <==> t in ts && p(t)
    ensures IsSubsequence(r, ts)
    ensures forall t :: multiset(r)[t] == if p(t) then multiset(ts)[t] else 0
  {
    if ts == [] then []
    else
      assert ts == [ts[0]] + ts[1..];
      var rest := KeepTasks(ts[1..], p);
      var head := if p(ts[0]) then [ts[0]] else [];
      KeepStep(ts, p, rest);
      head + rest
  }

  /** The step of `KeepTasks`: the first task, when it passes, followed by the kept rest. */
  lemma KeepStep(ts: seq<Task>, p: Task -> bool, rest: seq<Task>)
    requires ts != []
    requires IsSubsequence(rest, ts[1..])
    requires forall t :: multiset(rest)[t] == if p(t) then multiset(ts[1..])[t] else 0
    ensures var r := (if p(ts[0]) then [ts[0]] else []) + rest;
      && IsSubsequence(r, ts)
      && (forall t :: multiset(r)[t] == if p(t) then multiset(ts)[t] else 0)
      && (forall t :: t in r <==> t in ts && p(t))
      && |r| <= |ts|
  {
    var head := if p(ts[0]) then [ts[0]] else [];
    assert ts == [ts[0]] + ts[1..];
    SubsequenceCons(rest, ts[1..], ts[0]);
    if p(ts[0]) {
      assert head + rest == [ts[0]] + rest;
    } else {
      assert head + rest == rest;
    }
    SubsequenceMembers(head + rest, ts);
    assert multiset(ts) == multiset([ts[0]]) + multiset(ts[1..]);
    assert multiset(head + rest) == multiset(head) + multiset(rest);
    assert forall t :: t in head + rest <==> t in multiset(head + rest);
    assert forall t :: t in ts <==> t in multiset(ts);
  }

  /** Filtering twice is filtering once by both conditions, in the same order. */
  lemma {:induction false} KeepTwice(ts: seq<Task>, p: Task -> bool, q: Task -> bool, w: Task -> bool)
    requires forall t :: w(t) == (p(t) && q(t))
    ensures KeepTasks(KeepTasks(ts, p), q) == KeepTasks(ts, w)
  {
    if ts != [] {
      KeepTwice(ts[1..], p, q, w);
      var rest := KeepTasks(ts[1..], p);
      if p(ts[0]) {
        assert KeepTasks(ts, p) == [ts[0]] + rest;
        assert ([ts[0]] + rest)[1..] == rest;
      } else {
        assert KeepTasks(ts, p) == rest;
      }
    }
  }

  /** Two conditions that agree on every element keep the same elements. */
  lemma {:induction false} KeepSame(ts: seq<Task>, p: Task -> bool, q: Task -> bool)
    requires forall t :: t in ts ==> p(t) == q(t)
    ensures KeepTasks(ts, p) == KeepTasks(ts, q)
  {
    if ts != [] {
      assert forall t :: t in ts[1..] ==> t in ts;
      KeepSame(ts[1..], p, q);
    }
  }

  /** A condition every element meets keeps the whole list. */
  lemma {:induction false} KeepAll(ts: seq<Task>, p: Task -> bool)
    requires forall t :: t in ts ==> p(t)
    ensures KeepTasks(ts, p) == ts
  {
    if ts != [] {
      assert ts == [ts[0]] + ts[1..];
      assert forall t :: t in ts[1..] ==> t in ts;
      KeepAll(ts[1..], p);
      assert p(ts[0]);
      assert KeepTasks(ts, p) == [ts[0]] + KeepTasks(ts[1..], p);
    }
  }

  /** The tasks `get_tasks` answers with: status and priority must match when given. */
  function Wanted(status: string, priority: string): Task -> bool
  {
    (t: Task) => (status != "" ==> StatusCode(t.status) == status) && (priority != "" ==> PriorityCode(t.priority) == priority)
  }

  // ---------------------------------------------------------------------------
  // Task endpoints
  // ---------------------------------------------------------------------------

  /**
   * `get_tasks`: the user's tasks, filtered by the optional status and priority.
   * The repository is read before the filters are validated, so a read error wins.
   */
  method GetTasks(repo: GenericRepository, params: map<string, string>, now: Readings) returns (resp: Response)
    requires repo.Valid()
    ensures IsCors(resp)
    ensures UserParam(params).None? ==> resp == Cors(ErrorBody(UserRequired), 400)
    ensures UserParam(params).Some? ==>
      var found := FromCosmosAll(Filter(repo.container.docs, UserAndType(UserParam(params).value, TaskType)), now);
      var status := Param(params, "status");
      var priority := Param(params, "priority");
      if found.Err? then resp == Cors(ErrorBody(InternalError), 500)
      else if status != "" && ParseStatus(status).None? then resp == Cors(ErrorBody("Invalid status: " + status), 400)
      else if priority != "" && ParsePriority(priority).None? then resp == Cors(ErrorBody("Invalid priority: " + priority), 400)
      else resp == Cors(TaskList(KeepTasks(found.value, Wanted(status, priority))), 200)
    ensures resp.status == 200 ==> resp.body.TaskList? && forall t :: t in resp.body.tasks ==> t.userId == params["user_id"]
  {
    var user := UserParam(params);
    if user.None? {
      resp := Cors(ErrorBody(UserRequired), 400);
      return;
    }
    var found := repo.GetDocumentsByUserAndType(user.value, TaskType, now);
    if found.Err? {
      resp := Cors(ErrorBody(InternalError), 500);
      return;
    }
    var status, priority := Param(params, "status"), Param(params, "priority");
    var tasks := found.value;
    if status != "" {
      var wanted := ParseStatus(status);
      if wanted.None? {
        resp := Cors(ErrorBody("Invalid status: " + status), 400);
        return;
      }
      tasks := KeepTasks(tasks, (t: Task) => t.status == wanted.value);
      forall t | t in found.value
        ensures (t.status == wanted.value) == Wanted(status, "")(t)
      {
        StatusCodes(status, t.status, wanted.value);
      }
      KeepSame(found.value, (t: Task) => t.status == wanted.value, Wanted(status, ""));
    } else {
      KeepAll(found.value, Wanted(status, ""));
    }
    assert tasks == KeepTasks(found.value, Wanted(status, ""));
    if priority != "" {
      var wanted := ParsePriority(priority);
      if wanted.None? {
        resp := Cors(ErrorBody("Invalid priority: " + priority), 400);
        return;
      }
      tasks := KeepTasks(tasks, (t: Task) => t.priority == wanted.value);
      forall t
        ensures Wanted(status, priority)(t) == (Wanted(status, "")(t) && t.priority == wanted.value)
      {
        PriorityCodes(priority, t.priority, wanted.value);
      }
      KeepTwice(found.value, Wanted(status, ""), (t: Task) => t.priority == wanted.value, Wanted(status, priority));
    } else {
      KeepSame(found.value, Wanted(status, ""), Wanted(status, priority));
    }
    resp := Cors(TaskList(tasks), 200);
  }

  /** `get_overdue_tasks`: `clock` is the handler's own clock read, `now` the one used while reading tasks. */
  method GetOverdueTasks(repo: GenericRepository, params: map<string, string>, now: Readings, clock: Instant)
    returns (resp: Response)
    requires repo.Valid()
    ensures IsCors(resp)
    ensures UserParam(params).None? ==> resp == Cors(ErrorBody(UserRequired), 400)
    ensures UserParam(params).Some? ==>
      var found := FromCosmosAll(Filter(repo.container.docs, UserAndType(UserParam(params).value, TaskType)), now);
      if found.Err? then resp == Cors(ErrorBody(InternalError), 500)
      else resp == Cors(TaskList(KeepTasks(found.value, (t: Task) => IsOverdue(t, clock))), 200)
    ensures resp.status == 200 ==>
      && resp.body.TaskList?
      && forall t :: t in resp.body.tasks ==>
           t.dueDate.Some? && t.dueDate.value < clock && t.status != Completed && t.userId == params["user_id"]
  {
    var user := UserParam(params);
    if user.None? {
      resp := Cors(ErrorBody(UserRequired), 400);
      return;
    }
    var found := repo.GetDocumentsByUserAndType(user.value, TaskType, now);
    if found.Err? {
      resp := Cors(ErrorBody(InternalError), 500);
      return;
    }
    var overdue := KeepTasks(found.value, (t: Task) => IsOverdue(t, clock));
    resp := Cors(TaskList(overdue), 200);
  }

  /**
   * `create_task`: a validated request becomes a pending task, which the repository
   * stores under `freshId`; a storage error is a 500.
   */
  method CreateTask(repo: GenericRepository, body: Option<Value>, freshId: string, t1: Instant, t2: Instant, now: Readings)
    returns (resp: Response)
    requires repo.Valid()
    modifies repo.container
    ensures repo.Valid() && IsCors(resp)
    ensures body.None? ==> resp == Cors(ErrorBody(InvalidJson), 400) && repo.container.docs == old(repo.container.docs)
    ensures body.Some? && ParseCreateRequest(body.value).Err? ==>
      && resp == Cors(ErrorBody("Validation error: " + ParseCreateRequest(body.value).error), 400)
      && repo.container.docs == old(repo.container.docs)
    ensures body.Some? && ParseCreateRequest(body.value).Ok? ==>
      var q := ParseCreateRequest(body.value).value;
      if Lookup(old(repo.container.docs), "user_id", DocKey(freshId, q.userId)).None? then
        var task := Task(Some(freshId), q.title, q.description, Pending, q.priority, q.dueDate, t1, t2, None, q.tags, q.userId);
        && resp == Cors(TaskBody(task), 201)
        && repo.container.docs == old(repo.container.docs) + [ToCosmosDict(task)]
      else
        && resp.status == 500 && resp.body.ErrorBody?
        && repo.container.docs == old(repo.container.docs)
  {
    if body.None? {
      resp := Cors(ErrorBody(InvalidJson), 400);
      return;
    }
    var request := ParseCreateRequest(body.value);
    if request.Err? {
      resp := Cors(ErrorBody("Validation error: " + request.error), 400);
      return;
    }
    var q := request.value;
    TaskFromCreateRequest(q, now);
    var task := Construct(CreateRequestDump(q), now).value;
    var created := repo.CreateDocument(task, freshId, t1, t2, now);
    match created {
      case Ok(t) => resp := Cors(TaskBody(t), 201);
      case Err(e) => resp := Cors(ErrorBody("Internal server error: " + e), 500);
    }
  }

  /** `get_task_by_id`: 404 when nothing is stored under (task id, user), 500 when the stored task does not read back. */
  method GetTaskById(repo: GenericRepository, taskId: string, params: map<string, string>, now: Readings)
    returns (resp: Response)
    requires repo.Valid()
    ensures IsCors(resp)
    ensures UserParam(params).None? ==> resp == Cors(ErrorBody(UserRequired), 400)
    ensures UserParam(params).Some? ==>
      var stored := Lookup(repo.container.docs, "user_id", DocKey(taskId, UserParam(params).value));
      && (stored.None? ==> resp == Cors(ErrorBody(TaskNotFound), 404))
      && (stored.Some? && FromCosmosDict(stored.value, now).Ok? ==>
            resp == Cors(TaskBody(FromCosmosDict(stored.value, now).value), 200))
      && (stored.Some? && FromCosmosDict(stored.value, now).Err? ==> resp == Cors(ErrorBody(InternalError), 500))
  {
    var user := UserParam(params);
    if user.None? {
      resp := Cors(ErrorBody(UserRequired), 400);
      return;
    }
    var found := repo.GetDocumentById(taskId, user.value, now);
    match found {
      case Ok(None) => resp := Cors(ErrorBody(TaskNotFound), 404);
      case Ok(Some(t)) => resp := Cors(TaskBody(t), 200);
      case Err(_) => resp := Cors(ErrorBody(InternalError), 500);
    }
  }

  /**
   * `update_task`: the fields the request sets are merged into the stored task (a `null`
   * one is skipped by the repository) and `updated_at` is stamped with `now`. A due date
   * is dumped as a native `datetime`, which the store client cannot send: a request that
   * sets one is answered with a 500 and changes nothing.
   */
  method UpdateTask(repo: GenericRepository, taskId: string, params: map<string, string>, body: Option<Value>,
                    now: Instant, readNow: Readings)
    returns (resp: Response)
    requires repo.Valid()
    modifies repo.container
    ensures repo.Valid() && IsCors(resp)
    ensures UserParam(params).None? ==>
      resp == Cors(ErrorBody(UserRequired), 400) && repo.container.docs == old(repo.container.docs)
    ensures UserParam(params).Some? && body.None? ==>
      resp == Cors(ErrorBody(InvalidJson), 400) && repo.container.docs == old(repo.container.docs)
    ensures UserParam(params).Some? && body.Some? && ParseUpdateRequest(body.value).Err? ==>
      && resp == Cors(ErrorBody("Validation error: " + ParseUpdateRequest(body.value).error), 400)
      && repo.container.docs == old(repo.container.docs)
    ensures UserParam(params).Some? && body.Some? && ParseUpdateRequest(body.value).Ok? ==>
      var q := ParseUpdateRequest(body.value).value;
      var key := DocKey(taskId, UserParam(params).value);
      var stored := Lookup(old(repo.container.docs), "user_id", key);
      if stored.None? then
        resp == Cors(ErrorBody(TaskNotFound), 404) && repo.container.docs == old(repo.container.docs)
      else if q.dueDate.Set? && q.dueDate.value.Some? then
        resp == Cors(ErrorBody(InternalError), 500) && repo.container.docs == old(repo.container.docs)
      else
        var merged := Restamped(stored.value + DropNulls(DumpSet(q)), now);
        && Written(old(repo.container.docs), repo.container.docs, "user_id", key, merged)
        && (FromCosmosDict(merged, readNow).Ok? ==> resp == Cors(TaskBody(FromCosmosDict(merged, readNow).value), 200))
        && (FromCosmosDict(merged, readNow).Err? ==> resp == Cors(ErrorBody(InternalError), 500))
  {
    var user := UserParam(params);
    if user.None? {
      resp := Cors(ErrorBody(UserRequired), 400);
      return;
    }
    if body.None? {
      resp := Cors(ErrorBody(InvalidJson), 400);
      return;
    }
    var request := ParseUpdateRequest(body.value);
    if request.Err? {
      resp := Cors(ErrorBody("Validation error: " + request.error), 400);
      return;
    }
    var q := request.value;
    var updates := DumpSet(q);
    UpdateDumpFields(q);
    ghost var stored := Lookup(repo.container.docs, "user_id", DocKey(taskId, user.value));
    if stored.Some? {
      DueDateBlocksUpdate(stored.value, q, now);
    }
    resp := RespondToUpdate(repo, taskId, user.value, updates, now, readNow);
  }

  /**
   * A stored task merged with an update request can be sent to the store exactly when
   * the request sets no due date.
   */
  lemma DueDateBlocksUpdate(stored: Record, q: UpdateTaskRequest, now: Instant)
    requires SerialisableRecord(stored)
    ensures SerialisableRecord(Restamped(stored + DropNulls(DumpSet(q)), now)) <==> !(q.dueDate.Set? && q.dueDate.value.Some?)
  {
    RestampedSerialisable(stored, DumpSet(q), now);
    DumpSetSerialisable(q);
    assert "updated_at" !in DumpSet(q);
  }

  /**
   * The repository update of `update_task` and the response to it, for updates that
   * name neither `id` nor `user_id`: 404 when nothing is stored, 500 when the merged
   * document cannot be sent or does not read back, otherwise 200 with the task.
   */
  method RespondToUpdate(repo: GenericRepository, taskId: string, userId: string, updates: Record,
                         now: Instant, readNow: Readings)
    returns (resp: Response)
    requires repo.Valid()
    requires "id" !in updates && "user_id" !in updates
    modifies repo.container
    ensures repo.Valid() && IsCors(resp)
    ensures var key := DocKey(taskId, userId);
      var stored := Lookup(old(repo.container.docs), "user_id", key);
      if stored.None? then
        resp == Cors(ErrorBody(TaskNotFound), 404) && repo.container.docs == old(repo.container.docs)
      else
        var merged := Restamped(stored.value + DropNulls(updates), now);
        if !SerialisableRecord(merged) then
          resp == Cors(ErrorBody(InternalError), 500) && repo.container.docs == old(repo.container.docs)
        else
          && Written(old(repo.container.docs), repo.container.docs, "user_id", key, merged)
          && (FromCosmosDict(merged, readNow).Ok? ==> resp == Cors(TaskBody(FromCosmosDict(merged, readNow).value), 200))
          && (FromCosmosDict(merged, readNow).Err? ==> resp == Cors(ErrorBody(InternalError), 500))
  {
    ghost var key := DocKey(taskId, userId);
    ghost var stored := Lookup(repo.container.docs, "user_id", key);
    if stored.Some? {
      UpdateKeepsKey(stored.value, updates, key, now);
    }
    var updated := repo.UpdateDocument(taskId, userId, updates, now, readNow);
    match updated {
      case Ok(None) => resp := Cors(ErrorBody(TaskNotFound), 404);
      case Ok(Some(t)) => resp := Cors(TaskBody(t), 200);
      case Err(_) => resp := Cors(ErrorBody(InternalError), 500);
    }
  }

  /** Updates that name neither `id` nor `user_id` leave the stored document's key alone. */
  lemma UpdateKeepsKey(stored: Record, updates: Record, key: DocKey, now: Instant)
    requires KeyOf(stored, "user_id") == Some(key)
    requires "id" !in updates && "user_id" !in updates
    ensures KeyOf(Restamped(stored + DropNulls(updates), now), "user_id") == Some(key)
  {
    var merged := Restamped(stored + DropNulls(updates), now);
    assert Get(merged, "id") == Get(stored, "id");
    assert Get(merged, "user_id") == Get(stored, "user_id");
  }

  /** `delete_task`: removes the task stored under (task id, user), 404 when there is none. */
  method DeleteTask(repo: GenericRepository, taskId: string, params: map<string, string>) returns (resp: Response)
    requires repo.Valid()
    modifies repo.container
    ensures repo.Valid() && IsCors(resp)
    ensures UserParam(params).None? ==>
      resp == Cors(ErrorBody(UserRequired), 400) && repo.container.docs == old(repo.container.docs)
    ensures UserParam(params).Some? ==>
      var key := DocKey(taskId, UserParam(params).value);
      && (Lookup(old(repo.container.docs), "user_id", key).Some? ==> resp == Cors(MessageBody("Task deleted successfully"), 200))
      && (Lookup(old(repo.container.docs), "user_id", key).None? ==>
            resp == Cors(ErrorBody(TaskNotFound), 404) && repo.container.docs == old(repo.container.docs))
      && Removed(old(repo.container.docs), repo.container.docs, "user_id", {key})
  {
    var user := UserParam(params);
    if user.None? {
      resp := Cors(ErrorBody(UserRequired), 400);
      return;
    }
    var deleted := repo.DeleteDocument(taskId, user.value);
    if !deleted {
      resp := Cors(ErrorBody(TaskNotFound), 404);
    } else {
      resp := Cors(MessageBody("Task deleted successfully"), 200);
    }
  }

  // ---------------------------------------------------------------------------
  // Goal, habit and project endpoints
  // ---------------------------------------------------------------------------

  datatype Entity = YearlyGoals | QuarterlyGoals | WeeklyGoals | Habits | Projects

  /** The `document_type` the list endpoint queries. */
  function EntityType(e: Entity): string
  {
    match e
    case YearlyGoals => "yearly_goal"
    case QuarterlyGoals => "quarterly_goal"
    case WeeklyGoals => "weekly_goal"
    case Habits => "habit"
    case Projects => "project"
  }

  /** The word the not-found and deleted messages use. */
  function Noun(e: Entity): string
  {
    match e
    case YearlyGoals | QuarterlyGoals | WeeklyGoals => "Goal"
    case Habits => "Habit"
    case Projects => "Project"
  }

  /** What an entity endpoint does with a request: answer at once, or make one repository call. */
  datatype Step =
    | Answer(resp: Response)
    | ListCall(userId: string, docType: string)
    | CreateCall(doc: Record)
    | UpdateCall(id: string, userId: string, updates: Record)
    | DeleteCall(id: string, userId: string)

  /** `get_<entities>`, before the repository: a request without a user is refused. */
  function ListEntities(e: Entity, params: map<string, string>): (s: Step)
    ensures s.Answer? <==> UserParam(params).None?
    ensures s.Answer? ==> s.resp == Cors(ErrorBody(UserRequired), 400)
    ensures s.ListCall? ==> s.userId == params["user_id"] && s.docType == EntityType(e)
  {
    match UserParam(params)
    case None => Answer(Cors(ErrorBody(UserRequired), 400))
    case Some(u) => ListCall(u, EntityType(e))
  }

  /** `get_<entities>`, after the repository: any raised error is a 500. */
  function ListEntitiesReply(found: Result<seq<Record>>): (r: Response)
    ensures IsCors(r)
    ensures r.status == 200 <==> found.Ok?
    ensures found.Ok? ==> r.body == RecordList(found.value)
    ensures found.Err? ==> r == Cors(ErrorBody(InternalError), 500)
  {
    match found
    case Ok(items) => Cors(RecordList(items), 200)
    case Err(_) => Cors(ErrorBody(InternalError), 500)
  }

  /**
   * `create_<entity>`, before the repository: `request` is the validated request's dump,
   * or the message of whatever was raised while reading and validating the body.
   */
  function CreateEntity(request: Result<Record>): (s: Step)
    ensures s.Answer? <==> request.Err?
    ensures request.Err? ==> s.resp == Cors(ErrorBody(request.error), 400)
    ensures request.Ok? ==> s == CreateCall(request.value)
  {
    match request
    case Err(msg) => Answer(Cors(ErrorBody(msg), 400))
    case Ok(d) => CreateCall(d)
  }

  /** `create_<entity>`, after the repository: a raised error is answered with 400, not 500. */
  function CreateEntityReply(created: Result<Record>): (r: Response)
    ensures IsCors(r)
    ensures r.status == 201 <==> created.Ok?
    ensures created.Ok? ==> r.body == RecordBody(created.value)
    ensures created.Err? ==> r == Cors(ErrorBody(created.error), 400)
  {
    match created
    case Ok(item) => Cors(RecordBody(item), 201)
    case Err(msg) => Cors(ErrorBody(msg), 400)
  }

  /**
   * `update_<entity>`, before the repository: the user is checked first, then the body;
   * only the fields whose value is not `None` are passed on.
   */
  function UpdateEntity(id: string, params: map<string, string>, request: Result<Record>): (s: Step)
    ensures UserParam(params).None? ==> s == Answer(Cors(ErrorBody(UserRequired), 400))
    ensures UserParam(params).Some? && request.Err? ==> s == Answer(Cors(ErrorBody(request.error), 400))
    ensures s.UpdateCall? <==> UserParam(params).Some? && request.Ok?
    ensures s.UpdateCall? ==>
      && s.id == id && s.userId == params["user_id"]
      && (forall k :: k in s.updates ==> s.updates[k] != Null)
      && (forall k :: k in request.value && request.value[k] != Null ==> k in s.updates && s.updates[k] == request.value[k])
      && s.updates.Keys <= request.value.Keys
  {
    match UserParam(params)
    case None => Answer(Cors(ErrorBody(UserRequired), 400))
    case Some(u) =>
      match request
      case Err(msg) => Answer(Cors(ErrorBody(msg), 400))
      case Ok(d) => UpdateCall(id, u, DropNulls(d))
  }

  /** `update_<entity>`, after the repository: `None` is the entity's not-found answer. */
  function UpdateEntityReply(e: Entity, updated: Result<Option<Record>>): (r: Response)
    ensures IsCors(r)
    ensures r.status == 404 <==> updated == Ok(None)
    ensures r.status == 404 ==> r.body == ErrorBody(Noun(e) + " not found")
    ensures r.status == 200 <==> updated.Ok? && updated.value.Some?
    ensures r.status == 200 ==> r.body == RecordBody(updated.value.value)
    ensures updated.Err? ==> r == Cors(ErrorBody(updated.error), 400)
  {
    match updated
    case Ok(None) => Cors(ErrorBody(Noun(e) + " not found"), 404)
    case Ok(Some(item)) => Cors(RecordBody(item), 200)
    case Err(msg) => Cors(ErrorBody(msg), 400)
  }

  /** `delete_<entity>`, before the repository. */
  function DeleteEntity(id: string, params: map<string, string>): (s: Step)
    ensures s.Answer? <==> UserParam(params).None?
    ensures s.Answer? ==> s.resp == Cors(ErrorBody(UserRequired), 400)
    ensures s.DeleteCall? ==> s.id == id && s.userId == params["user_id"]
  {
    match UserParam(params)
    case None => Answer(Cors(ErrorBody(UserRequired), 400))
    case Some(u) => DeleteCall(id, u)
  }

  /** `delete_<entity>`, after the repository: a raised error is a 500. */
  function DeleteEntityReply(e: Entity, deleted: Result<bool>): (r: Response)
    ensures IsCors(r)
    ensures r.status == 200 <==> deleted == Ok(true)
    ensures r.status == 200 ==> r.body == MessageBody(Noun(e) + " deleted successfully")
    ensures r.status == 404 <==> deleted == Ok(false)
    ensures r.status == 404 ==> r.body == ErrorBody(Noun(e) + " not found")
    ensures deleted.Err? ==> r == Cors(ErrorBody(deleted.error), 500)
  {
    match deleted
    case Ok(true) => Cors(MessageBody(Noun(e) + " deleted successfully"), 200)
    case Ok(false) => Cors(ErrorBody(Noun(e) + " not found"), 404)
    case Err(msg) => Cors(ErrorBody(msg), 500)
  }
}
