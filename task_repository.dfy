/**
 * The task repository: queries over the user's tasks (by status, by priority,
 * overdue) with their `ORDER BY`, and the task update with its completion rule.
 * Its create, read-by-id and delete do what the generic repository's do for a task.
 */
module TaskRepo {
  import opened Wrappers
  import opened Strings
  import opened IsoTime
  import opened Values
  import opened Ordering
  import opened Store
  import opened Models
  import opened GenericRepo

  /** `WHERE c.user_id = @user_id`, and `AND c.status = @status` when a status is given. */
  function UserAndStatus(userId: string, status: Option<TaskStatus>): Record -> bool
  {
    r => Get(r, "user_id") == Str(userId) && (status.None? || Get(r, "status") == Str(StatusCode(status.value)))
  }

  /** `WHERE c.user_id = @user_id AND c.priority = @priority`. */
  function UserAndPriority(userId: string, priority: string): Record -> bool
  {
    r => Get(r, "user_id") == Str(userId) && Get(r, "priority") == Str(priority)
  }

  /**
   * The overdue `WHERE` clause: a `due_date` string before the current time's string, and a
   * `status` other than `completed`. A comparison with a missing field or with a value of
   * another type is undefined in the store's query language, so it excludes the document.
   */
  predicate OverdueRecord(r: Record, userId: string, current: string)
  {
    && Get(r, "user_id") == Str(userId)
    && Get(r, "due_date") != Null
    && Get(r, "due_date").Str? && LexLess(Get(r, "due_date").s, current)
    && Get(r, "status").Str? && Get(r, "status").s != StatusCode(Completed)
  }

  function Overdue(userId: string, current: string): Record -> bool
  {
    r => OverdueRecord(r, userId, current)
  }

  /** `ORDER BY c.created_at DESC`, stated on the tasks. */
  predicate NewestFirst(ts: seq<Task>)
  {
    forall i, j :: 0 <= i < j < |ts| ==> ts[i].createdAt >= ts[j].createdAt
  }

  /** `ORDER BY c.due_date ASC`, stated on the tasks (all of which have a due date). */
  predicate EarliestDueFirst(ts: seq<Task>)
  {
    forall i, j :: 0 <= i < j < |ts| ==> ts[i].dueDate.Some? && ts[j].dueDate.Some? && ts[i].dueDate.value <= ts[j].dueDate.value
  }

  /** Records sorted by their `created_at` strings read back as tasks sorted by creation time. */
  lemma {:induction false} ReadNewestFirst(items: seq<Record>, now: Readings)
    requires Sorted(items, Desc("created_at"))
    requires forall i :: 0 <= i < |items| ==> Get(items[i], "created_at").Str?
    requires FromCosmosAll(items, now).Ok?
    ensures NewestFirst(FromCosmosAll(items, now).value)
  {
    var ts := FromCosmosAll(items, now).value;
    forall i, j | 0 <= i < j < |ts|
      ensures ts[i].createdAt >= ts[j].createdAt
    {
      assert InOrder(items[i], items[j], Desc("created_at"));
      ReadCreatedOrder(items[i], items[j], now);
    }
  }

  /** Two records in `created_at DESC` order read back as tasks in the same order. */
  lemma ReadCreatedOrder(a: Record, b: Record, now: Readings)
    requires InOrder(a, b, Desc("created_at")) && Get(a, "created_at").Str? && Get(b, "created_at").Str?
    requires FromCosmosDict(a, now).Ok? && FromCosmosDict(b, now).Ok?
    ensures FromCosmosDict(a, now).value.createdAt >= FromCosmosDict(b, now).value.createdAt
  {
    ReadTimes(a, now);
    ReadTimes(b, now);
    IsoOrder(FromCosmosDict(a, now).value.createdAt, FromCosmosDict(b, now).value.createdAt);
  }

  /**
   * On a record that reads back as a task, the overdue `WHERE` clause agrees with the
   * handler's overdue test, provided the record stores a `status` and does not hold a
   * native datetime as its due date.
   */
  lemma OverdueAgrees(r: Record, userId: string, now: Instant, readNow: Readings)
    requires FromCosmosDict(r, readNow).Ok? && "status" in r && !Get(r, "due_date").Time?
    ensures OverdueRecord(r, userId, IsoFormat(now))
        <==> Get(r, "user_id") == Str(userId) && IsOverdue(FromCosmosDict(r, readNow).value, now)
  {
    var t := FromCosmosDict(r, readNow).value;
    ReadTimes(r, readNow);
    ReadStatus(r, readNow);
    StatusCodes(StatusCode(t.status), t.status, Completed);
    if t.dueDate.Some? {
      IsoOrder(t.dueDate.value, now);
    }
  }

  /**
   * `task_dict.update(updates)` on the stored form, then `updated_at` from the clock
   * (`now1`) and the completion rule (`now2` is its clock read).
   */
  function UpdatedBody(stored: Record, updates: Record, now1: Instant, now2: Instant): Record
  {
    var merged := (stored + updates)["updated_at" := Str(IsoFormat(now1))];
    if Get(updates, "status") == Str(StatusCode(Completed)) && !Truthy(Get(merged, "completed_at")) then
      merged["completed_at" := Str(IsoFormat(now2))]
    else if Get(updates, "status") != Str(StatusCode(Completed)) then
      merged["completed_at" := Null]
    else
      merged
  }

  /** Every update is copied verbatim, `None` included; other stored fields persist; `updated_at` is restamped. */
  lemma UpdateCopies(stored: Record, updates: Record, now1: Instant, now2: Instant)
    ensures var r := UpdatedBody(stored, updates, now1, now2);
      && r.Keys == stored.Keys + updates.Keys + {"updated_at", "completed_at"}
      && r["updated_at"] == Str(IsoFormat(now1))
      && (forall k :: k in updates && k != "updated_at" && k != "completed_at" ==> r[k] == updates[k])
      && (forall k :: k in stored && k !in updates && k != "updated_at" && k != "completed_at" ==> r[k] == stored[k])
  {
  }

  /** The completion rule, case by case. */
  lemma CompletionRule(stored: Record, updates: Record, now1: Instant, now2: Instant)
    ensures var r := UpdatedBody(stored, updates, now1, now2);
      var before := Get(stored + updates, "completed_at");
      && (Get(updates, "status") == Str("completed") && !Truthy(before) ==> r["completed_at"] == Str(IsoFormat(now2)))
      && (Get(updates, "status") == Str("completed") && Truthy(before) ==> r["completed_at"] == before)
      && (Get(updates, "status") != Str("completed") ==> r["completed_at"] == Null)
  {
    var merged := (stored + updates)["updated_at" := Str(IsoFormat(now1))];
    assert Get(merged, "completed_at") == Get(stored + updates, "completed_at");
  }

  /**
   * The updated body can be sent to the store when every update is plain JSON, and
   * cannot when an update other than the two timestamps the rule rewrites holds a `datetime`.
   */
  lemma UpdatedBodySerialisable(stored: Record, updates: Record, now1: Instant, now2: Instant)
    requires SerialisableRecord(stored)
    ensures SerialisableRecord(updates) ==> SerialisableRecord(UpdatedBody(stored, updates, now1, now2))
    ensures (exists k :: k in updates && k != "updated_at" && k != "completed_at" && !Serialisable(updates[k]))
            ==> !SerialisableRecord(UpdatedBody(stored, updates, now1, now2))
  {
    UpdateCopies(stored, updates, now1, now2);
    var r := UpdatedBody(stored, updates, now1, now2);
    if SerialisableRecord(updates) {
      CompletionRule(stored, updates, now1, now2);
      forall k | k in r
        ensures Serialisable(r[k])
      {
      }
    }
  }

  /** An update that does not mention the status clears the completion time, even of a completed task. */
  lemma TitleUpdateClearsCompletion(t: Task, title: string, now1: Instant, now2: Instant)
    ensures UpdatedBody(ToCosmosDict(t), map["title" := Str(title)], now1, now2)["completed_at"] == Null
  {
    CompletionRule(ToCosmosDict(t), map["title" := Str(title)], now1, now2);
  }

  class TaskRepository {
    const container: Container

    ghost predicate Valid()
      reads this, container
    {
      container.Valid() && container.path == "user_id"
    }

    constructor (container: Container)
      requires container.Valid() && container.path == "user_id"
      ensures this.container == container && Valid()
    {
      this.container := container;
    }

    /** `get_tasks_by_user`: the user's tasks, of the given status if any, newest first. */
    method GetTasksByUser(userId: string, status: Option<TaskStatus>, now: Readings) returns (r: Result<seq<Task>>)
      requires Valid()
      ensures var items := Query(container.docs, UserAndStatus(userId, status), Desc("created_at"));
        && r == FromCosmosAll(items, now)
        && Sorted(items, Desc("created_at"))
        && (forall x :: x in items <==> x in container.docs && UserAndStatus(userId, status)(x))
      ensures r.Ok? ==> forall i :: 0 <= i < |r.value| ==>
        r.value[i].userId == userId && (status.Some? ==> r.value[i].status == status.value)
      ensures var items := Query(container.docs, UserAndStatus(userId, status), Desc("created_at"));
        r.Ok? && (forall i :: 0 <= i < |items| ==> Get(items[i], "created_at").Str?) ==> NewestFirst(r.value)
    {
      var p := UserAndStatus(userId, status);
      var items := container.QueryItems(p, Desc("created_at"));
      r := FromCosmosAll(items, now);
      if r.Ok? && forall i :: 0 <= i < |items| ==> Get(items[i], "created_at").Str? {
        ReadNewestFirst(items, now);
      }
      if r.Ok? {
        forall i | 0 <= i < |items|
          ensures r.value[i].userId == userId && (status.Some? ==> r.value[i].status == status.value)
        {
          assert items[i] in items && p(items[i]);
          assert FromCosmosDict(items[i], now) == Ok(r.value[i]);
          if status.Some? {
            ReadStatus(items[i], now);
            StatusCodes(StatusCode(status.value), status.value, r.value[i].status);
          }
        }
      }
    }

    /** `get_tasks_by_priority`: the user's tasks whose `priority` field is the given string, newest first. */
    method GetTasksByPriority(userId: string, priority: string, now: Readings) returns (r: Result<seq<Task>>)
      requires Valid()
      ensures var items := Query(container.docs, UserAndPriority(userId, priority), Desc("created_at"));
        && r == FromCosmosAll(items, now)
        && Sorted(items, Desc("created_at"))
        && (forall x :: x in items <==> x in container.docs && UserAndPriority(userId, priority)(x))
      ensures r.Ok? ==> forall i :: 0 <= i < |r.value| ==>
        r.value[i].userId == userId && PriorityCode(r.value[i].priority) == priority
      ensures var items := Query(container.docs, UserAndPriority(userId, priority), Desc("created_at"));
        r.Ok? && (forall i :: 0 <= i < |items| ==> Get(items[i], "created_at").Str?) ==> NewestFirst(r.value)
    {
      var p := UserAndPriority(userId, priority);
      var items := container.QueryItems(p, Desc("created_at"));
      r := FromCosmosAll(items, now);
      if r.Ok? && forall i :: 0 <= i < |items| ==> Get(items[i], "created_at").Str? {
        ReadNewestFirst(items, now);
      }
      if r.Ok? {
        forall i | 0 <= i < |items|
          ensures r.value[i].userId == userId && PriorityCode(r.value[i].priority) == priority
        {
          assert items[i] in items && p(items[i]);
          assert FromCosmosDict(items[i], now) == Ok(r.value[i]);
          ReadPriority(items[i], now);
        }
      }
    }

    /**
     * `get_overdue_tasks`: the user's tasks due before the clock's `now` and not completed,
     * earliest due first. The comparison is on the ISO strings.
     */
    method GetOverdueTasks(userId: string, now: Instant, readNow: Readings) returns (r: Result<seq<Task>>)
      requires Valid()
      ensures var items := Query(container.docs, Overdue(userId, IsoFormat(now)), Asc("due_date"));
        && r == FromCosmosAll(items, readNow)
        && (forall x :: x in items <==> x in container.docs && OverdueRecord(x, userId, IsoFormat(now)))
      ensures r.Ok? ==> forall i :: 0 <= i < |r.value| ==> r.value[i].userId == userId && IsOverdue(r.value[i], now)
      ensures r.Ok? ==> EarliestDueFirst(r.value)
    {
      var p := Overdue(userId, IsoFormat(now));
      var items := container.QueryItems(p, Asc("due_date"));
      r := FromCosmosAll(items, readNow);
      if r.Ok? {
        var ts := r.value;
        forall i | 0 <= i < |items|
          ensures ts[i].userId == userId && IsOverdue(ts[i], now)
        {
          assert items[i] in items && p(items[i]);
          assert FromCosmosDict(items[i], readNow) == Ok(ts[i]);
          OverdueAgrees(items[i], userId, now, readNow);
        }
        forall i, j | 0 <= i < j < |ts|
          ensures ts[i].dueDate.Some? && ts[j].dueDate.Some? && ts[i].dueDate.value <= ts[j].dueDate.value
        {
          assert items[i] in items && p(items[i]);
          assert items[j] in items && p(items[j]);
          assert FromCosmosDict(items[i], readNow) == Ok(ts[i]);
          assert FromCosmosDict(items[j], readNow) == Ok(ts[j]);
          ReadTimes(items[i], readNow);
          ReadTimes(items[j], readNow);
          assert InOrder(items[i], items[j], Asc("due_date"));
          IsoOrder(ts[j].dueDate.value, ts[i].dueDate.value);
        }
      }
    }

    /**
     * `update_task`: `None` when the task is absent; otherwise the stored task's storage
     * form with every update copied in, `updated_at` restamped and the completion rule
     * applied, replacing the stored record. An update holding a `datetime` cannot be
     * sent, and the error is re-raised.
     */
    method UpdateTask(id: string, userId: string, updates: Record, now1: Instant, now2: Instant, readNow: Readings)
      returns (r: Result<Option<Task>>)
      requires Valid()
      modifies container
      ensures Valid()
      ensures var stored := Lookup(old(container.docs), "user_id", DocKey(id, userId));
        stored.None? ==> r == Ok(None) && container.docs == old(container.docs)
      ensures var stored := Lookup(old(container.docs), "user_id", DocKey(id, userId));
        stored.Some? && FromCosmosDict(stored.value, readNow).Err? ==> r.Err? && container.docs == old(container.docs)
      ensures var stored := Lookup(old(container.docs), "user_id", DocKey(id, userId));
        stored.Some? && FromCosmosDict(stored.value, readNow).Ok? ==>
          var body := UpdatedBody(ToCosmosDict(FromCosmosDict(stored.value, readNow).value), updates, now1, now2);
          var key := KeyOf(body, "user_id");
          if !SerialisableRecord(body) then
            r.Err? && container.docs == old(container.docs)
          else if key.Some? && key.value.id == id && Lookup(old(container.docs), "user_id", key.value).Some? then
            && Lookup(container.docs, "user_id", key.value) == Some(body)
            && (forall k :: k != key.value ==> Lookup(container.docs, "user_id", k) == Lookup(old(container.docs), "user_id", k))
            && r == Reply(FromCosmosDict(body, readNow))
          else
            && container.docs == old(container.docs)
            && (r == Ok(None) <==> key.Some? && key.value.id == id)
            && (r != Ok(None) ==> r.Err?)
    {
      var item := container.ReadItem(id, userId);
      if item.None? {
        r := Ok(None);
        return;
      }
      var existing := FromCosmosDict(item.value, readNow);
      if existing.Err? {
        r := Err(existing.error);
        return;
      }
      var body := UpdatedBody(ToCosmosDict(existing.value), updates, now1, now2);
      r := ReplaceTask(container, id, body, readNow);
    }
  }
}
