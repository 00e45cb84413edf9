/**
 * The generic repository: create, read, list, partially update and delete documents
 * in the main container, scoped by their owner's `user_id` (the partition key). The
 * model classes other than `Task` are not part of this model, so the repository is
 * modelled for `Task` documents.
 */
module GenericRepo {
  import opened Wrappers
  import opened IsoTime
  import opened Values
  import opened Ordering
  import opened Store
  import opened Models

  /** `DocumentType.TASK.value`. */
  const TaskType: string := "task"

  /** A falsy id (`None` or empty) is replaced by a fresh one. */
  function AssignId(id: Option<string>, freshId: string): (r: Option<string>)
    ensures id.Some? && id.value != "" ==> r == id
    ensures id.None? || id.value == "" ==> r == Some(freshId)
  {
    if id.None? || id.value == "" then Some(freshId) else id
  }

  /** The task as `create_document` stores it: id assigned when falsy, both timestamps from the clock. */
  function Stamped(t: Task, freshId: string, t1: Instant, t2: Instant): Task
  {
    t.(id := AssignId(t.id, freshId), createdAt := t1, updatedAt := t2)
  }

  /** `WHERE c.user_id = @user_id AND c.document_type = @document_type`. */
  function UserAndType(userId: string, docType: string): Record -> bool
  {
    r => Get(r, "user_id") == Str(userId) && Get(r, "document_type") == Str(docType)
  }

  /** `[convert(item) for item in items]`, where the first failure raises. */
  function ConvertAll<T>(items: seq<Record>, convert: Record -> Result<T>): (r: Result<seq<T>>)
    ensures r.Ok? <==> forall i :: 0 <= i < |items| ==> convert(items[i]).Ok?
    ensures r.Ok? ==> |r.value| == |items|
    ensures r.Ok? ==> forall i :: 0 <= i < |items| ==> convert(items[i]) == Ok(r.value[i])
  {
    if items == [] then Ok([])
    else match convert(items[0])
      case Err(e) => Err(e)
      case Ok(first) =>
        assert forall i :: 1 <= i < |items| ==> items[i] == items[1..][i - 1];
        match ConvertAll(items[1..], convert)
        case Err(e) => Err(e)
        case Ok(rest) => Ok([first] + rest)
  }

  /** `[model_class.from_cosmos_dict(item) for item in items]`. */
  function FromCosmosAll(items: seq<Record>, now: Readings): (r: Result<seq<Task>>)
    ensures r.Ok? <==> forall i :: 0 <= i < |items| ==> FromCosmosDict(items[i], now).Ok?
    ensures r.Ok? ==> |r.value| == |items|
    ensures r.Ok? ==> forall i :: 0 <= i < |items| ==> FromCosmosDict(items[i], now) == Ok(r.value[i])
  {
    ConvertAll(items, (d: Record) => FromCosmosDict(d, now))
  }

  /** Tasks read from records owned by `userId` belong to `userId`. */
  lemma {:induction false} OwnedTasks(items: seq<Record>, userId: string, now: Readings)
    requires forall i :: 0 <= i < |items| ==> Get(items[i], "user_id") == Str(userId)
    requires FromCosmosAll(items, now).Ok?
    ensures forall i :: 0 <= i < |items| ==> FromCosmosAll(items, now).value[i].userId == userId
  {
    var ts := FromCosmosAll(items, now).value;
    forall i | 0 <= i < |items|
      ensures ts[i].userId == userId
    {
      assert FromCosmosDict(items[i], now) == Ok(ts[i]);
    }
  }

  /** `updated_at` stamped with the clock as an ISO string. */
  function Restamped(rec: Record, now: Instant): (r: Record)
    ensures r.Keys == rec.Keys + {"updated_at"}
    ensures r["updated_at"] == Str(IsoFormat(now))
    ensures forall k :: k in rec && k != "updated_at" ==> r[k] == rec[k]
  {
    rec["updated_at" := Str(IsoFormat(now))]
  }

  /**
   * A stored record merged with updates and restamped can be sent to the store exactly
   * when every update other than `updated_at` (which the stamp overwrites) is plain JSON.
   */
  lemma RestampedSerialisable(stored: Record, updates: Record, now: Instant)
    requires SerialisableRecord(stored)
    ensures SerialisableRecord(Restamped(stored + DropNulls(updates), now))
            <==> forall k :: k in updates && k != "updated_at" ==> Serialisable(updates[k])
  {
    var merged := Restamped(stored + DropNulls(updates), now);
    if forall k :: k in updates && k != "updated_at" ==> Serialisable(updates[k]) {
      forall k | k in merged
        ensures Serialisable(merged[k])
      {
      }
    } else {
      var k :| k in updates && k != "updated_at" && !Serialisable(updates[k]);
      assert merged[k] == updates[k];
    }
  }

  /** A converted item as the repository returns it: a read-back failure raises. */
  function Reply(converted: Result<Task>): (r: Result<Option<Task>>)
    ensures r.Ok? <==> converted.Ok?
    ensures r.Ok? ==> r.value == Some(converted.value)
  {
    match converted
    case Ok(t) => Ok(Some(t))
    case Err(e) => Err(e)
  }

  /**
   * The `for key, value in updates.items()` loop of `update_document`: every update
   * whose value is not `None` overwrites the stored field.
   */
  method MergeNonNull(existing: Record, updates: Record) returns (r: Record)
    ensures r == existing + DropNulls(updates)
    ensures forall k :: k in updates && updates[k] != Null ==> k in r && r[k] == updates[k]
    ensures forall k :: k in existing && (k !in updates || updates[k] == Null) ==> k in r && r[k] == existing[k]
    ensures forall k :: k in r ==> k in existing || (k in updates && updates[k] != Null)
  {
    r := existing;
    var pending := updates.Keys;
    while pending != {}
      invariant pending <= updates.Keys
      invariant forall k :: k in r <==> k in existing || (k in updates && k !in pending && updates[k] != Null)
      invariant forall k :: k in r ==> r[k] == if k in updates && k !in pending && updates[k] != Null then updates[k] else existing[k]
      decreases |pending|
    {
      var k :| k in pending;
      if updates[k] != Null {
        r := r[k := updates[k]];
      }
      pending := pending - {k};
    }
    var expected := existing + DropNulls(updates);
    assert forall k :: k in r <==> k in expected;
    assert forall k :: k in r ==> r[k] == expected[k];
    assert r == expected;
  }

  /**
   * The `replace_item` call of the task updates and the reply it leads to: the task read
   * back from the replaced document, `None` when the store reports not found, and a
   * raised error for a body that cannot be sent or whose id does not match.
   */
  method ReplaceTask(container: Container, id: string, body: Record, readNow: Readings) returns (r: Result<Option<Task>>)
    requires container.Valid() && container.path == "user_id"
    modifies container
    ensures container.Valid()
    ensures var key := KeyOf(body, "user_id");
      if !SerialisableRecord(body) then
        r.Err? && container.docs == old(container.docs)
      else if key.Some? && key.value.id == id && Lookup(old(container.docs), "user_id", key.value).Some? then
        && Lookup(container.docs, "user_id", key.value) == Some(body)
        && (forall k :: k != key.value ==> Lookup(container.docs, "user_id", k) == Lookup(old(container.docs), "user_id", k))
        && r == Reply(FromCosmosDict(body, readNow))
      else
        && container.docs == old(container.docs)
        && (r == Ok(None) <==> key.Some? && key.value.id == id)
        && (r != Ok(None) ==> r.Err?)
  {
    var res := container.ReplaceItem(id, body);
    match res {
      case Failed(NotFound) =>
        r := Ok(None);
      case Failed(Unserialisable) =>
        r := Err("TypeError: Object of type datetime is not JSON serializable");
      case Failed(_) =>
        r := Err("Bad request: the body's id does not match the item");
      case Done(item) =>
        r := Reply(FromCosmosDict(item, readNow));
    }
  }

  class GenericRepository {
    const container: Container

    ghost predicate Valid()
      reads this, container
    {
      container.Valid() && container.path == "user_id"
    }

    constructor (container: Container)
      requires container.Valid() && container.path == "user_id"
      ensures this.container == container && Valid()
    {
      this.container := container;
    }

    /**
     * `create_document`: assigns the id and timestamps, stores the task's storage form,
     * and returns it read back. `freshId` is the `uuid4` value, `t1` and `t2` the two
     * clock reads, `now` the readings for defaults while reading back.
     */
    method CreateDocument(t: Task, freshId: string, t1: Instant, t2: Instant, now: Readings) returns (r: Result<Task>)
      requires Valid()
      modifies container
      ensures Valid()
      ensures var key := DocKey(AssignId(t.id, freshId).value, t.userId);
        && (r.Ok? <==> Lookup(old(container.docs), "user_id", key).None?)
        && (r.Ok? ==> r.value == Stamped(t, freshId, t1, t2)
                      && container.docs == old(container.docs) + [ToCosmosDict(r.value)]
                      && Lookup(container.docs, "user_id", key) == Some(ToCosmosDict(r.value)))
        && (r.Err? ==> container.docs == old(container.docs))
      ensures r.Ok? ==> r.value.createdAt == t1 && r.value.updatedAt == t2 && r.value.userId == t.userId
    {
      var doc := Stamped(t, freshId, t1, t2);
      var body := ToCosmosDict(doc);
      DumpIdentity(doc);
      assert KeyOf(body, "user_id") == Some(DocKey(doc.id.value, t.userId));
      StoredSerialisable(doc);
      var res := container.CreateItem(body);
      match res {
        case Failed(_) =>
          r := Err("Conflict: an item with this id already exists");
        case Done(item) =>
          CosmosRoundTrip(doc, now);
          r := FromCosmosDict(item, now);
      }
    }

    /** `get_documents_by_user_and_type`: every document of the user with that type, in store order. */
    method GetDocumentsByUserAndType(userId: string, docType: string, now: Readings) returns (r: Result<seq<Task>>)
      requires Valid()
      ensures r == FromCosmosAll(Filter(container.docs, UserAndType(userId, docType)), now)
      ensures r.Ok? ==> forall i :: 0 <= i < |r.value| ==> r.value[i].userId == userId
    {
      var p := UserAndType(userId, docType);
      var items := container.QueryItems(p, Unordered);
      SortByUnordered(Filter(container.docs, p));
      r := FromCosmosAll(items, now);
      if r.Ok? {
        forall i | 0 <= i < |items|
          ensures Get(items[i], "user_id") == Str(userId)
        {
          assert items[i] in items;
          assert p(items[i]);
        }
        OwnedTasks(items, userId, now);
      }
    }

    /** `get_document_by_id`: `None` when nothing is stored under (id, user_id). */
    method GetDocumentById(id: string, userId: string, now: Readings) returns (r: Result<Option<Task>>)
      requires Valid()
      ensures r == Ok(None) <==> Lookup(container.docs, "user_id", DocKey(id, userId)).None?
      ensures r.Ok? && r.value.Some? ==>
        var stored := Lookup(container.docs, "user_id", DocKey(id, userId));
        stored.Some? && FromCosmosDict(stored.value, now) == Ok(r.value.value) && r.value.value.userId == userId
      ensures r.Err? ==>
        var stored := Lookup(container.docs, "user_id", DocKey(id, userId));
        stored.Some? && FromCosmosDict(stored.value, now).Err?
    {
      var item := container.ReadItem(id, userId);
      match item {
        case None =>
          r := Ok(None);
        case Some(rec) =>
          match FromCosmosDict(rec, now) {
            case Ok(task) => r := Ok(Some(task));
            case Err(e) => r := Err(e);
          }
      }
    }

    /**
     * `update_document`: merges the non-`None` updates into the stored record, stamps
     * `updated_at` with `now` and replaces it. `None` when nothing is stored under
     * (id, user_id), or when the replace reports not found: the replace takes its
     * partition from the merged body, so an update naming another owner lands there.
     * An update holding a `datetime` cannot be sent, and the error propagates.
     */
    method UpdateDocument(id: string, userId: string, updates: Record, now: Instant, readNow: Readings)
      returns (r: Result<Option<Task>>)
      requires Valid()
      modifies container
      ensures Valid()
      ensures var stored := Lookup(old(container.docs), "user_id", DocKey(id, userId));
        stored.None? ==> r == Ok(None) && container.docs == old(container.docs)
      ensures var stored := Lookup(old(container.docs), "user_id", DocKey(id, userId));
        stored.Some? ==>
          var merged := Restamped(stored.value + DropNulls(updates), now);
          var key := KeyOf(merged, "user_id");
          if !SerialisableRecord(merged) then
            r.Err? && container.docs == old(container.docs)
          else if key.Some? && key.value.id == id && Lookup(old(container.docs), "user_id", key.value).Some? then
            && Lookup(container.docs, "user_id", key.value) == Some(merged)
            && (forall k :: k != key.value ==> Lookup(container.docs, "user_id", k) == Lookup(old(container.docs), "user_id", k))
            && r == Reply(FromCosmosDict(merged, readNow))
          else
            && container.docs == old(container.docs)
            && (r == Ok(None) <==> key.Some? && key.value.id == id)
            && (r != Ok(None) ==> r.Err?)
      ensures Get(DropNulls(updates), "user_id") in {Null, Str(userId)} ==>
        forall k :: k != DocKey(id, userId) ==> Lookup(container.docs, "user_id", k) == Lookup(old(container.docs), "user_id", k)
    {
      var existing := container.ReadItem(id, userId);
      if existing.None? {
        r := Ok(None);
        return;
      }
      var merged := MergeNonNull(existing.value, updates);
      merged := Restamped(merged, now);
      r := ReplaceTask(container, id, merged, readNow);
    }

    /** `delete_document`: `true` and the document removed if it existed, else `false` and nothing changes. */
    method DeleteDocument(id: string, userId: string) returns (deleted: bool)
      requires Valid()
      modifies container
      ensures Valid()
      ensures deleted == Lookup(old(container.docs), "user_id", DocKey(id, userId)).Some?
      ensures !deleted ==> container.docs == old(container.docs)
      ensures Lookup(container.docs, "user_id", DocKey(id, userId)).None?
      ensures forall k :: k != DocKey(id, userId) ==> Lookup(container.docs, "user_id", k) == Lookup(old(container.docs), "user_id", k)
    {
      deleted := container.DeleteItem(id, userId);
    }
  }
}
