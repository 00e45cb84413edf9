/**
 * The notes and folders repositories. Both have the same create, read, update and
 * delete operations over a container partitioned by `user_id`; notes add a folder
 * listing and a case-insensitive search, folders a listing by parent. The `Note` and
 * `Folder` models are not part of this model: their documents are records, and their
 * `to_dict`/`from_dict` conversions are taken to leave a record as it is.
 */
module Notes {
  import opened Wrappers
  import opened Strings
  import opened IsoTime
  import opened Values
  import opened Ordering
  import opened Store
  import opened GenericRepo

  /** The record as `create_note`/`create_folder` stores it: a falsy id replaced, both timestamps from the clock. */
  function NewRecord(rec: Record, freshId: string, t1: Instant, t2: Instant): (r: Record)
  {
    var id := if Truthy(Get(rec, "id")) then rec["id"] else Str(freshId);
    rec["id" := id]["created_at" := Str(IsoFormat(t1))]["updated_at" := Str(IsoFormat(t2))]
  }

  /** A new record keeps a given id, otherwise takes the fresh one, and keeps every other field. */
  lemma NewRecordFields(rec: Record, freshId: string, t1: Instant, t2: Instant)
    ensures var r := NewRecord(rec, freshId, t1, t2);
      && r.Keys == rec.Keys + {"id", "created_at", "updated_at"}
      && (Truthy(Get(rec, "id")) ==> r["id"] == rec["id"])
      && (!Truthy(Get(rec, "id")) ==> r["id"] == Str(freshId))
      && r["created_at"] == Str(IsoFormat(t1)) && r["updated_at"] == Str(IsoFormat(t2))
      && (forall k :: k in rec && k !in {"id", "created_at", "updated_at"} ==> r[k] == rec[k])
  {
  }

  /**
   * `updated_data.update(data)` followed by the `updated_at` stamp, as written: every key
   * of `data` is copied, `None` included, and the stamp is a native `datetime`.
   */
  function Merged(existing: Record, data: Record, now: Instant): Record
  {
    (existing + data)["updated_at" := Time(now)]
  }

  /** The merge copies `data` over the stored fields, and its `datetime` stamp cannot be sent to the store. */
  lemma MergedFields(existing: Record, data: Record, now: Instant)
    ensures var r := Merged(existing, data, now);
      && r.Keys == existing.Keys + data.Keys + {"updated_at"}
      && r["updated_at"] == Time(now)
      && !SerialisableRecord(r)
      && (forall k :: k in data && k != "updated_at" ==> r[k] == data[k])
      && (forall k :: k in existing && k !in data && k != "updated_at" ==> r[k] == existing[k])
  {
    assert !Serialisable(Merged(existing, data, now)["updated_at"]);
  }

  /** The merge with the stamp written as an ISO string, as the other repositories stamp `updated_at`. */
  function MergedIso(existing: Record, data: Record, now: Instant): Record
  {
    Restamped(existing + data, now)
  }

  /** The ISO-stamped merge can be sent exactly when the stored record and every update but `updated_at` can. */
  lemma MergedIsoFields(existing: Record, data: Record, now: Instant)
    ensures var r := MergedIso(existing, data, now);
      && r.Keys == existing.Keys + data.Keys + {"updated_at"}
      && r["updated_at"] == Str(IsoFormat(now))
      && (forall k :: k in data && k != "updated_at" ==> r[k] == data[k])
      && (forall k :: k in existing && k !in data && k != "updated_at" ==> r[k] == existing[k])
      && (SerialisableRecord(r) <==> forall k :: k in existing + data && k != "updated_at" ==> Serialisable((existing + data)[k]))
  {
  }

  /** `WHERE c.id = @id AND c.user_id = @user_id`. */
  function IdAndUser(id: string, userId: string): Record -> bool
  {
    r => Get(r, "id") == Str(id) && Get(r, "user_id") == Str(userId)
  }

  /** `WHERE c.user_id = @user_id`, and `AND c.folder_id = @folder_id` when a folder id is given and non-empty. */
  function InFolder(userId: string, folderId: Option<string>): Record -> bool
  {
    r => Get(r, "user_id") == Str(userId)
      && (folderId.Some? && folderId.value != "" ==> Get(r, "folder_id") == Str(folderId.value))
  }

  /**
   * `CONTAINS(UPPER(c.title), UPPER(@term)) OR CONTAINS(UPPER(c.content), UPPER(@term))`.
   * `UPPER` of a missing or non-string field is undefined, which does not satisfy the test.
   */
  predicate TextMatches(v: Value, term: string)
  {
    v.Str? && Contains(Upper(v.s), Upper(term))
  }

  predicate NoteMatches(r: Record, userId: string, term: string)
  {
    Get(r, "user_id") == Str(userId) && (TextMatches(Get(r, "title"), term) || TextMatches(Get(r, "content"), term))
  }

  function Search(userId: string, term: string): Record -> bool
  {
    r => NoteMatches(r, userId, term)
  }

  /**
   * `WHERE c.user_id = @user_id AND c.parent_id = @parent_id` for a non-empty parent id,
   * otherwise `AND (c.parent_id = null OR NOT IS_DEFINED(c.parent_id))`.
   */
  predicate FolderUnder(r: Record, userId: string, parentId: Option<string>)
  {
    && Get(r, "user_id") == Str(userId)
    && if parentId.Some? && parentId.value != "" then Get(r, "parent_id") == Str(parentId.value)
       else Get(r, "parent_id") == Null
  }

  function Under(userId: string, parentId: Option<string>): Record -> bool
  {
    r => FolderUnder(r, userId, parentId)
  }

  /** The search ignores the case of the term: searching for `term` and for its upper case find the same notes. */
  lemma SearchIgnoresCase(r: Record, userId: string, term: string)
    ensures NoteMatches(r, userId, term) <==> NoteMatches(r, userId, Upper(term))
  {
    UpperIdempotent(term);
  }

  /** A note whose upper-cased title holds the upper-cased term at some position is found. */
  lemma SearchFindsTitle(r: Record, userId: string, term: string, i: int)
    requires Get(r, "user_id") == Str(userId) && Get(r, "title").Str?
    requires OccursAt(Upper(Get(r, "title").s), Upper(term), i)
    ensures NoteMatches(r, userId, term)
  {
    ContainsAt(Upper(Get(r, "title").s), Upper(term));
  }

  /** A note is found only when the term occurs, case aside, in its title or its content. */
  lemma SearchOnlyOccurrences(r: Record, userId: string, term: string)
    requires NoteMatches(r, userId, term)
    ensures exists f :: f in {"title", "content"} && Get(r, f).Str?
                        && (exists i :: OccursAt(Upper(Get(r, f).s), Upper(term), i))
  {
    if TextMatches(Get(r, "title"), term) {
      ContainsAt(Upper(Get(r, "title").s), Upper(term));
      assert "title" in {"title", "content"};
    } else {
      ContainsAt(Upper(Get(r, "content").s), Upper(term));
      assert "content" in {"title", "content"};
    }
  }

  /** The root listing and a child listing never share a folder. */
  lemma RootAndChildrenDisjoint(r: Record, userId: string, parentId: string)
    requires parentId != ""
    ensures !(FolderUnder(r, userId, None) && FolderUnder(r, userId, Some(parentId)))
  {
  }

  /**
   * `NotesRepository` and `FoldersRepository`: the two classes have the same create,
   * read, update and delete code over their own containers (notes, folders);
   * `ListNotes` and `SearchNotes` are used on the notes container, `ListFolders` on
   * the folders container.
   */
  class RecordRepository {
    const container: Container

    ghost predicate Valid()
      reads this, container
    {
      container.Valid() && container.path == "user_id"
    }

    constructor (container: Container)
      requires container.Valid() && container.path == "user_id"
      ensures this.container == container && Valid()
    {
      this.container := container;
    }

    /** `create_note`/`create_folder`: a store failure (a `datetime` in the body, a missing key, an id in use) raises. */
    method Create(rec: Record, freshId: string, t1: Instant, t2: Instant) returns (r: Result<Record>)
      requires Valid()
      modifies container
      ensures Valid()
      ensures var body := NewRecord(rec, freshId, t1, t2);
        r.Ok? <==> (&& SerialisableRecord(body) && KeyOf(body, "user_id").Some?
                    && Lookup(old(container.docs), "user_id", KeyOf(body, "user_id").value).None?)
      ensures var body := NewRecord(rec, freshId, t1, t2);
        r.Ok? ==> (&& r.value == body && container.docs == old(container.docs) + [body]
                   && Lookup(container.docs, "user_id", KeyOf(body, "user_id").value) == Some(body))
      ensures r.Err? ==> container.docs == old(container.docs)
    {
      var body := NewRecord(rec, freshId, t1, t2);
      var res := container.CreateItem(body);
      match res {
        case Done(created) =>
          r := Ok(created);
        case Failed(_) =>
          r := Err("The store refused the new document");
      }
    }

    /** `get_note`/`get_folder`: the first document of the query on id and owner. */
    method Get(id: string, userId: string) returns (r: Option<Record>)
      requires Valid()
      ensures r == Lookup(container.docs, "user_id", DocKey(id, userId))
      ensures r.Some? ==> (&& r.value in container.docs && Values.Get(r.value, "id") == Str(id)
                           && Values.Get(r.value, "user_id") == Str(userId))
    {
      var p := IdAndUser(id, userId);
      var items := container.QueryItems(p, Unordered);
      if items != [] {
        assert items[0] in items;
        LookupMember(container.docs, "user_id", items[0]);
        r := Some(items[0]);
      } else {
        r := None;
      }
    }

    /**
     * `update_note`/`update_folder` as written: `None` when the document is absent;
     * otherwise the merged document carries a native `datetime`, the store client
     * cannot serialise it, and the error is re-raised. No stored document can be updated.
     */
    method Update(id: string, userId: string, data: Record, now: Instant) returns (r: Result<Option<Record>>)
      requires Valid()
      modifies container
      ensures Valid()
      ensures container.docs == old(container.docs)
      ensures r == Ok(None) <==> Lookup(old(container.docs), "user_id", DocKey(id, userId)).None?
      ensures r != Ok(None) ==> r.Err?
    {
      var existing := Get(id, userId);
      if existing.None? {
        r := Ok(None);
        return;
      }
      var body := Merged(existing.value, data, now);
      MergedFields(existing.value, data, now);
      var res := container.ReplaceItem(id, body);
      match res {
        case Failed(NotFound) =>
          r := Ok(None);
        case Failed(_) =>
          r := Err("TypeError: Object of type datetime is not JSON serializable");
        case Done(replaced) =>
          r := Ok(Some(replaced));
      }
    }

    /**
     * `update_note`/`update_folder` with the stamp written as an ISO string: `None` when
     * the document is absent or the store reports it not found; the merged document
     * replaces the stored one. The partition is taken from the merged document, so an
     * update of `user_id` looks for the document in the new owner's partition.
     */
    method UpdateCorrected(id: string, userId: string, data: Record, now: Instant) returns (r: Result<Option<Record>>)
      requires Valid()
      modifies container
      ensures Valid()
      ensures var stored := Lookup(old(container.docs), "user_id", DocKey(id, userId));
        stored.None? ==> r == Ok(None) && container.docs == old(container.docs)
      ensures var stored := Lookup(old(container.docs), "user_id", DocKey(id, userId));
        stored.Some? ==>
          var body := MergedIso(stored.value, data, now);
          var key := KeyOf(body, "user_id");
          if !SerialisableRecord(body) then
            r.Err? && container.docs == old(container.docs)
          else if key.Some? && key.value.id == id && Lookup(old(container.docs), "user_id", key.value).Some? then
            && r == Ok(Some(body))
            && Lookup(container.docs, "user_id", key.value) == Some(body)
            && (forall k :: k != key.value ==> Lookup(container.docs, "user_id", k) == Lookup(old(container.docs), "user_id", k))
          else
            && container.docs == old(container.docs)
            && (r == Ok(None) <==> key.Some? && key.value.id == id)
            && (r != Ok(None) ==> r.Err?)
    {
      var existing := Get(id, userId);
      if existing.None? {
        r := Ok(None);
        return;
      }
      var body := MergedIso(existing.value, data, now);
      var res := container.ReplaceItem(id, body);
      match res {
        case Failed(NotFound) =>
          r := Ok(None);
        case Failed(Unserialisable) =>
          r := Err("TypeError: Object of type datetime is not JSON serializable");
        case Failed(_) =>
          r := Err("Bad request: the body's id does not match the document");
        case Done(replaced) =>
          r := Ok(Some(replaced));
      }
    }

    /** `delete_note`/`delete_folder`: `false` when the store reports not found. */
    method Delete(id: string, userId: string) returns (deleted: bool)
      requires Valid()
      modifies container
      ensures Valid()
      ensures deleted == Lookup(old(container.docs), "user_id", DocKey(id, userId)).Some?
      ensures Lookup(container.docs, "user_id", DocKey(id, userId)).None?
      ensures forall k :: k != DocKey(id, userId) ==> Lookup(container.docs, "user_id", k) == Lookup(old(container.docs), "user_id", k)
    {
      deleted := container.DeleteItem(id, userId);
    }

    /** `list_notes`: the user's notes, in the folder when one is given, most recently updated first. */
    method ListNotes(userId: string, folderId: Option<string>) returns (r: seq<Record>)
      requires Valid()
      ensures r == Query(container.docs, InFolder(userId, folderId), Desc("updated_at"))
      ensures forall x :: x in r <==> (&& x in container.docs && Values.Get(x, "user_id") == Str(userId)
                                      && (folderId.Some? && folderId.value != "" ==> Values.Get(x, "folder_id") == Str(folderId.value)))
      ensures Sorted(r, Desc("updated_at"))
    {
      r := container.QueryItems(InFolder(userId, folderId), Desc("updated_at"));
    }

    /** `search_notes`: the user's notes whose title or content contains the term, case aside, most recently updated first. */
    method SearchNotes(userId: string, term: string) returns (r: seq<Record>)
      requires Valid()
      ensures r == Query(container.docs, Search(userId, term), Desc("updated_at"))
      ensures forall x :: x in r <==> x in container.docs && NoteMatches(x, userId, term)
      ensures Sorted(r, Desc("updated_at"))
    {
      r := container.QueryItems(Search(userId, term), Desc("updated_at"));
    }

    /** `list_folders`: the children of the parent when one is given, the root folders otherwise, by name. */
    method ListFolders(userId: string, parentId: Option<string>) returns (r: seq<Record>)
      requires Valid()
      ensures r == Query(container.docs, Under(userId, parentId), Asc("name"))
      ensures forall x :: x in r <==> x in container.docs && FolderUnder(x, userId, parentId)
      ensures Sorted(r, Asc("name"))
    {
      r := container.QueryItems(Under(userId, parentId), Asc("name"));
    }
  }
}
