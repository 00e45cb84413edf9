# 1TaskAssistant backend: a Dafny model

This project models the core of the 1TaskAssistant backend. The backend is a set of HTTP functions over
Cosmos DB containers that store tasks, goals, habits, projects, notes, folders, preview codes, user
profiles, onboarding status and chat sessions. The model covers:

- **The task model** (`models.dfy`, module `Models`): the `Task` record, its status and priority
  enumerations, `to_cosmos_dict` and `from_cosmos_dict`, and the create and update request
  models.
  - The central result is the storage round trip: `FromCosmosDict(ToCosmosDict(t)) == Ok(t)`.
  - Both conversions are built from the same steps as the Python code: dump, drop a null id,
    turn datetimes into ISO strings, then parse them back and validate the fields.
- **A Cosmos container** (`store.dfy`, module `Store`): a `Container` class whose `docs` sequence
  the create, read, replace, delete and query methods change or inspect.
  - A document is addressed by its `(id, partition key)` pair, and the pairs are kept distinct.
  - `Lookup` is the key-to-document view that every repository contract is written in.
- **The repositories**, each a class over a `Container`:
  - the generic repository (`generic_repository.dfy`);
  - the task repository (`task_repository.dfy`);
  - notes and folders (`notes_repository.dfy`);
  - preview codes (`preview_code_repository.dfy`);
  - user profiles, onboarding status and chat sessions (`user_profile_repository.dfy`).

  Each method states the new container contents in terms of the old ones, and the error paths that
  the Python code catches.
- **The HTTP handlers** (`function_app.dfy`, module `Handlers`):
  - The task handlers are methods over a `GenericRepository`. Their responses are pinned down
    status by status.
  - The goal, habit and project handlers are pure mappings. Each maps a request to a repository
    call (`Step`), and maps that call's answer to a response.
- **Supporting modules**:
  - `IsoTime`: an instant and its ISO text, as `isoformat` and `fromisoformat`.
  - `Strings`: Python's `strip` and `upper`, substring search and lexicographic order.
  - `Ordering`: query filtering and `ORDER BY`, as a stable sort on a field.
  - `Values`: JSON values and records.
  - `Wrappers`: `Option` and `Result`.

The clock, `uuid4`, and JSON parsing of a request body are not modelled as computations. Each clock
read becomes an `Instant` parameter. Each generated id becomes a `freshId` parameter. A body that is
not valid JSON is `None`.

## Model

| member | source | states |
|---|---|---|
| Models.ParseStatus | models.py:10-15 | a parsed status has exactly the given code; no status has a code the parser rejects |
| Models.ParsePriority | models.py:18-23 | a parsed priority has exactly the given code; no priority has a code the parser rejects |
| Models.StatusCodes | models.py:10-15 | the accepted codes are exactly pending, in_progress, completed and cancelled; parsing a status's code gives it back; codes are distinct |
| Models.PriorityCodes | models.py:18-23 | the accepted codes are exactly low, medium, high and urgent; parsing a priority's code gives it back; codes are distinct |
| Models.DumpIdentity | models.py:26-38 | `model_dump` holds the id, title and user id under their field names |
| Models.DumpDetails | models.py:26-38 | `model_dump` holds the description and the tags as a list of strings |
| Models.DumpEnums | models.py:10-38 | `model_dump` holds the status and priority as their string values |
| Models.DumpStamps | models.py:34-35 | `model_dump` holds `created_at` and `updated_at` as datetime objects |
| Models.DumpDates | models.py:33-36 | `model_dump` holds `due_date` and `completed_at` as datetimes, or None when unset |
| Models.Encoded | models.py:47-49 | a datetime becomes its ISO text, and any other value is kept; no datetime survives |
| Models.EncodeTimes | models.py:46-49 | only the four time fields are converted; every other field and the key set are unchanged |
| Models.DecodeTimes | models.py:56-60 | decoding succeeds exactly when no time field holds non-empty text that fails to parse; it then parses only the time fields' non-empty texts |
| Models.DropNullId | models.py:43-44 | a None or missing id is removed, and a present id is kept |
| Models.ToCosmosDict | models.py:40-51 | the stored record has an `id` exactly when the task has one; it has the dump's other keys, with the time fields as ISO text |
| Models.StoredTimes | models.py:47-49 | the stored `created_at`, `updated_at`, `completed_at` and `due_date` are the ISO texts of the task's instants, or None |
| Models.FieldStr | models.py:29 | a required string field validates exactly when present and a string |
| Models.FieldOptStr | models.py:28 | an optional string field validates when absent, None or a string; absent or None reads as no value |
| Models.TimeOf | models.py:33-36 | a datetime value denotes its instant |
| Models.FieldOptTime | models.py:33 | an optional datetime field reads None as no value and a datetime as its instant |
| Models.FieldTime | models.py:34-35 | a missing `created_at` or `updated_at` takes the current time (the default factory); None is rejected |
| Models.StrList | models.py:37 | a list validates as `List[str]` exactly when every element is a string |
| Models.StrListOfStrValues | models.py:37 | a dumped tag list reads back as the same tags |
| Models.FieldTags | models.py:37 | missing tags default to the empty list; accepted tags are exactly the list's strings |
| Models.FieldStatus | models.py:31 | a missing status defaults to pending; an accepted status is the one whose code is stored; any valid code is accepted |
| Models.FieldPriority | models.py:32 | a missing priority defaults to medium; an accepted priority is the one whose code is stored; any valid code is accepted |
| Models.Construct | models.py:62 | a constructed task takes its title, user id, status, priority and due date from the record, and `created_at` and `updated_at` from the record or, when missing, each from its own clock reading; a missing or non-string title or user id is rejected |
| Models.FromCosmosDict | models.py:54-62 | an unparsable time field makes the read fail; a read task has the stored title and user id |
| Models.ReadTimes | models.py:57-60 | a stored ISO due date or creation time reads back as the instant with that ISO text; a None due date reads as none |
| Models.ReadStatus | models.py:54-62 | a read task's status is the one whose code is stored |
| Models.ReadPriority | models.py:54-62 | a read task's priority is the one whose code is stored |
| Models.Defaults | models.py:26-38 | a task built from a title and a user id alone has no id, no description, pending, medium, no due date, `created_at` and `updated_at` from their own two clock readings, no completion and no tags |
| Models.DecodeEncode | models.py:40-62 | decoding the ISO texts that encoding produced gives back the original record |
| Models.DumpValidIdentity | models.py:28-38 | the dumped id, title and user id validate back to the task's own |
| Models.DumpValidDescription | models.py:30 | the dumped description validates back to the task's own |
| Models.DumpValidTags | models.py:37 | the dumped tags validate back to the task's own |
| Models.DumpValidEnums | models.py:31-32 | the dumped status and priority validate back to the task's own |
| Models.DumpValidStamps | models.py:34-35 | the dumped timestamps validate back to the task's own, whatever the current time |
| Models.DumpValidDates | models.py:33-36 | the dumped due date and completion time validate back to the task's own |
| Models.DumpTimesNotStrings | models.py:42-49 | no time field of a dump is text before encoding |
| Models.ConstructDump | models.py:42-62 | validating a task's own dump gives the same task |
| Models.CosmosRoundTrip | models.py:40-62 | reading back what `to_cosmos_dict` stores gives the same task |
| Models.StoredSerialisable | models.py:40-51 | what `to_cosmos_dict` stores holds no datetime, so the store can always send it |
| Models.ParseCreateRequest | models.py:65-72 | a body that is not an object, or lacks a title or a user id, is rejected; priority defaults to medium; an accepted request carries the body's title and user id |
| Models.CreateDumpNames | models.py:65-72 | a create request's title and user id validate as a task's |
| Models.CreateDumpDescription | models.py:65-72 | a create request's description validates as a task's, and it carries no id |
| Models.CreateDumpPriority | models.py:65-72 | a create request's priority and due date validate as a task's |
| Models.CreateDumpTags | models.py:65-72 | a create request's tags validate as a task's |
| Models.CreateDumpStatus | models.py:65-72 | a task built from a create request is pending and not completed |
| Models.CreateDumpStamps | models.py:65-72 | a task built from a create request takes `created_at` and `updated_at` from their own clock readings |
| Models.TaskFromCreateRequest | models.py:65-72 | a create request becomes the pending task with the request's fields, the two stamps from their own clock readings, no id and no completion |
| Models.ParseUpdateRequest | models.py:75-82 | a body is accepted exactly when it is an object whose every sent field validates; each request field is unset when the body lacks it, None when it is null, and otherwise the value its validator gives |
| Models.DumpSet | models.py:75-82 | `model_dump(exclude_unset=True)` holds only update fields, exactly the ones the request set |
| Models.DumpSetValues | models.py:75-82 | each set field is dumped as its value: null for None, the code of a status or priority, a datetime for a due date, a list of strings for tags |
| Models.PatchOf | models.py:75-82 | an optional field validates exactly when it is absent, null, or accepted by its validator; absent is unset, null is None, and a present value is the validator's |
| Models.UpdateRequestRoundTrip | models.py:75-82 | validating the dump of the fields a request set gives that request back |
| Models.DumpSetSerialisable | models.py:75-82 | an update dump can be sent to the store exactly when it does not set a due date, which stays a datetime |
| Models.DumpAll | models.py:75-82 | `model_dump()` holds every update field |
| Models.UpdateDumpFields | models.py:75-82 | no update dump can change the id, the user id or the completion time |
| Models.DumpsAgreeWithoutNulls | models.py:75-82 | after dropping None values, the full dump and the set-fields dump are the same updates |
| IsoTime.IsoFormat | models.py:47-49 | `isoformat` of an instant is text of one fixed width and layout |
| IsoTime.FromIsoFormat | models.py:57-60 | `fromisoformat` accepts exactly the texts of that width and layout |
| IsoTime.IsoRoundTrip | models.py:47-60 | parsing an instant's ISO text gives the instant back |
| IsoTime.IsoCanonical | models.py:47-60 | text that parses is the ISO text of what it parses to |
| IsoTime.IsoInjective | models.py:47-49 | distinct instants have distinct ISO texts |
| IsoTime.IsoOrder | task_repository.py:176-181 | ISO texts compare as strings exactly as their instants compare in time |
| Strings.Strip | preview_code_repository.py:46 | the stripped string is a slice of the input with only white space around it, and it neither starts nor ends with white space |
| Strings.StripUnique | preview_code_repository.py:46 | a slice with only white space around it and none at its ends is the `strip()` of the string: the result is unique |
| Strings.StripUpperSlice | preview_code_repository.py:46 | `strip().upper()` is the upper-cased slice left by `strip()`, with no white space at its ends |
| Strings.Upper | preview_code_repository.py:46 | `upper()` keeps the length and upper-cases each character |
| Strings.UpperIdempotent | notes_repository.py:170-171 | upper-casing twice is upper-casing once |
| Strings.StripStripped | preview_code_repository.py:46 | a string with no whitespace at either end is left as it is by `strip()` |
| Strings.StripUpperIdempotent | preview_code_repository.py:69-72 | normalising an already normalised code changes nothing |
| Strings.ContainsAt | notes_repository.py:170-171 | `CONTAINS` holds exactly when the term occurs at some position |
| Strings.LexLessIrreflexive | task_repository.py:78 | string order is irreflexive |
| Strings.LexLessTransitive | task_repository.py:78 | string order is transitive |
| Strings.LexLessTotal | task_repository.py:78 | string order is total |
| Strings.LexLessAsymmetric | task_repository.py:78 | string order is asymmetric |
| Ordering.InOrderTotal | task_repository.py:78 | any two documents are in order one way or the other |
| Ordering.InOrderTransitive | task_repository.py:78 | document order by a field is transitive |
| Ordering.InsertSorted | task_repository.py:78 | inserting a document into a sorted result keeps it sorted |
| Ordering.SortBy | task_repository.py:78 | `ORDER BY` output is sorted and a permutation of its input |
| Ordering.SortByUnordered | generic_repository.py:53-63 | sorting by a field no document has keeps store order |
| Ordering.Filter | generic_repository.py:53-63 | a `WHERE` result holds exactly the matching documents, each no more often than stored |
| Ordering.FilterSkips | generic_repository.py:53-63 | removing a non-matching document from the store does not change the result |
| Ordering.FilterKeepsAll | generic_repository.py:53-63 | the result is as long as the store exactly when every document matches |
| Ordering.FilterKeepsNone | generic_repository.py:53-63 | the result is empty exactly when no document matches |
| Ordering.Query | task_repository.py:71-87 | a query with `ORDER BY` returns the matching documents, each as often as stored, sorted by the field |
| Values.Get | generic_repository.py:90-92 | `dict.get` reads an absent key as None |
| Values.DropNulls | function_app.py:403 | dropping None values keeps exactly the non-None entries |
| Store.IndexOf | generic_repository.py:74 | the position found holds the key; no position holds a key that is not found |
| Store.Lookup | generic_repository.py:74 | `read_item` finds a stored document with the key, or reports that none has it |
| Store.LookupMember | generic_repository.py:74 | every stored document is found under its own key |
| Store.AppendLookup | generic_repository.py:41 | appending a document under a new key adds that key and changes no other |
| Store.ReplaceLookup | generic_repository.py:98 | replacing a document changes its key's answer only |
| Store.RemoveLookup | generic_repository.py:112 | removing a document removes its key only |
| Store.KeysDistinguish | generic_repository.py:74 | two stored documents with the same key are the same document |
| Store.StoredOnce | generic_repository.py:41 | no document is stored twice |
| Store.DistinctKeys | user_profile_repository.py:417-420 | the documents of any query result have pairwise distinct keys |
| Store.RemoveStep | preview_code_repository.py:177-186 | removing one more key extends the set of removed keys |
| Store.RemovedThen | user_profile_repository.py:144-149 | two removals in a row remove the union of their keys |
| Store.Container.constructor | generic_repository.py:23-24 | a new container is empty and keyed on the given partition path |
| Store.Container.CreateItem | generic_repository.py:41 | `create_item` refuses a body holding a datetime, which JSON encoding cannot serialise, before anything else and with no change; otherwise it succeeds exactly when the body has a key not yet stored, appends the body and changes no other key; a failure changes nothing |
| Store.Container.ReadItem | generic_repository.py:74 | `read_item` returns the document under the key, or not-found |
| Store.Container.ReplaceItem | generic_repository.py:98 | `replace_item` refuses a body holding a datetime before anything else, with no change; otherwise it succeeds exactly when the body's key is stored with the given id and changes that key only; an unknown key is not-found; a failure changes nothing |
| Store.Container.DeleteItem | generic_repository.py:112 | `delete_item` reports whether the key was stored, removes exactly that document and changes no other key |
| Store.Container.QueryItems | generic_repository.py:59-63 | `query_items` returns exactly the matching documents, sorted as the query orders them |
| GenericRepo.AssignId | generic_repository.py:30-31 | a present non-empty id is kept; a missing or empty id is replaced by the fresh one |
| GenericRepo.ConvertAll | generic_repository.py:65 | a list conversion succeeds exactly when every element converts, and then converts element by element |
| GenericRepo.FromCosmosAll | generic_repository.py:65 | converting a query result succeeds exactly when every document is a valid task, and gives those tasks in order |
| GenericRepo.OwnedTasks | generic_repository.py:53-65 | tasks read from one user's documents all belong to that user |
| GenericRepo.Restamped | generic_repository.py:95 | the stamp sets `updated_at` to the ISO text of now and changes no other field |
| GenericRepo.RestampedSerialisable | generic_repository.py:90-98 | the merged, restamped record can be sent exactly when every update other than `updated_at` can |
| GenericRepo.Reply | generic_repository.py:101 | a converted replacement is returned, and a failed conversion is an error |
| GenericRepo.MergeNonNull | generic_repository.py:90-92 | non-None updates overwrite; fields with no update or a None update are kept; no other field appears |
| GenericRepo.GenericRepository.constructor | generic_repository.py:23-24 | the repository works on the given container, partitioned by user id |
| GenericRepo.GenericRepository.CreateDocument | generic_repository.py:26-48 | a create succeeds exactly when the id (given or fresh) is new in the user's partition; it stores the stamped task's record and returns that task; a failure changes nothing |
| GenericRepo.GenericRepository.GetDocumentsByUserAndType | generic_repository.py:50-69 | returns the conversion of exactly the user's documents of the type, in store order; every task returned is the user's |
| GenericRepo.GenericRepository.GetDocumentById | generic_repository.py:71-81 | None exactly when no document has the key; otherwise the stored document converted, or an error when it does not convert |
| GenericRepo.GenericRepository.UpdateDocument | generic_repository.py:83-107 | a missing document gives None and no change; a merged record holding a datetime is an error with no change; otherwise the stored record, with the non-None updates and a fresh `updated_at`, replaces it when the key is kept; no other key changes |
| GenericRepo.GenericRepository.DeleteDocument | generic_repository.py:109-119 | reports whether the document existed; afterwards it is gone and no other key changed |
| GenericRepo.ReplaceTask | generic_repository.py:97-107 | a body holding a datetime is an error with no change; a stored key is replaced and the replacement converted; an unknown key gives None with no change; no other key changes |
| TaskRepo.ReadNewestFirst | task_repository.py:78-87 | tasks read from a result sorted by `created_at` descending are newest first |
| TaskRepo.ReadCreatedOrder | task_repository.py:78-87 | two stored creation times in descending text order read as instants in descending order |
| TaskRepo.OverdueAgrees | task_repository.py:176-181 | the overdue query matches a stored task exactly when the task is the user's, has a due date before now and is not completed |
| TaskRepo.UpdateCopies | task_repository.py:104-116 | the update body has the stored fields and the updates, in that priority, with a fresh `updated_at` |
| TaskRepo.CompletionRule | task_repository.py:110-113 | completing a task stamps `completed_at` unless it was already set; any other update clears it |
| TaskRepo.TitleUpdateClearsCompletion | task_repository.py:110-113 | an update that only changes the title clears the completion time |
| TaskRepo.UpdatedBodySerialisable | task_repository.py:104-116 | the update body can be sent when the updates can, and cannot when an update other than the two stamps holds a datetime |
| TaskRepo.TaskRepository.constructor | task_repository.py:18-25 | the repository works on the given container, partitioned by user id |
| TaskRepo.TaskRepository.GetTasksByUser | task_repository.py:65-94 | reads exactly the user's records, of the status when given, in descending `created_at` order, and converts them; the tasks are newest first when every record has a `created_at` string |
| TaskRepo.TaskRepository.GetTasksByPriority | task_repository.py:144-168 | reads exactly the user's records with the priority, in descending `created_at` order, and converts them; the tasks are newest first when every record has a `created_at` string |
| TaskRepo.TaskRepository.GetOverdueTasks | task_repository.py:170-202 | returns exactly the user's overdue tasks, earliest due date first |
| TaskRepo.TaskRepository.UpdateTask | task_repository.py:96-126 | a missing task gives None; a stored task that does not read back gives an error; an update body holding a datetime is an error with no change; otherwise the updated body, under the completion rule, replaces it and no other key changes |
| Notes.NewRecordFields | notes_repository.py:27-49 | a new note or folder keeps its truthy id or gets the fresh one, is stamped at creation, and keeps its other fields |
| Notes.MergedFields | notes_repository.py:117-120 | an update takes every given field, even None, and keeps the other stored fields; `updated_at` is a datetime, so the merged record cannot be sent to the store |
| Notes.MergedIsoFields | notes_repository.py:117-120 | with `updated_at` as ISO text the merge has the same fields, and can be sent exactly when the stored record and every update but `updated_at` can |
| Notes.SearchIgnoresCase | notes_repository.py:161-189 | searching for a term and for its upper-case form give the same notes |
| Notes.SearchFindsTitle | notes_repository.py:167-172 | a note of the user whose title contains the term, ignoring case, is found |
| Notes.SearchOnlyOccurrences | notes_repository.py:167-172 | a note is found only when its title or content contains the term, ignoring case |
| Notes.RootAndChildrenDisjoint | notes_repository.py:262-272 | no folder is both a root folder and a child of a named parent |
| Notes.RecordRepository.constructor | notes_repository.py:18-25 | the repository works on the given container, partitioned by user id |
| Notes.RecordRepository.Create | notes_repository.py:27-49 | `create_note` / `create_folder`: stored and returned exactly when the record can be sent and its key is new; a failure changes nothing |
| Notes.RecordRepository.Get | notes_repository.py:51-78 | `get_note` / `get_folder`: the stored record with that id in the user's partition, or None |
| Notes.RecordRepository.Update | notes_repository.py:109-138 | `update_note` / `update_folder` as written: a missing record gives None; for a stored record the datetime stamp makes the replace raise, so the answer is an error and nothing changes |
| Notes.RecordRepository.UpdateCorrected | notes_repository.py:109-138 | the update with an ISO stamp: a missing record gives None; a merge that cannot be sent is an error; otherwise the merge replaces the record when its key is kept; no other key changes |
| Notes.RecordRepository.Delete | notes_repository.py:140-159 | `delete_note` / `delete_folder`: reports whether it existed; afterwards it is gone and no other key changed |
| Notes.RecordRepository.ListNotes | notes_repository.py:80-107 | exactly the user's notes, in the folder when one is given, most recently updated first |
| Notes.RecordRepository.SearchNotes | notes_repository.py:161-189 | exactly the user's notes that match the search, most recently updated first |
| Notes.RecordRepository.ListFolders | notes_repository.py:257-284 | exactly the user's folders under the parent (or the roots), ordered by name |
| PreviewCodes.NewCodeFields | preview_code_repository.py:24-30 | a new code is stored under itself, unused, with no user and no time of use |
| PreviewCodes.Normalize | preview_code_repository.py:46 | a normalised code is the upper-cased slice of the input with only white space around it, and has no white space at its ends |
| PreviewCodes.NormalizeIdempotent | preview_code_repository.py:69-72 | normalising twice is normalising once, so the second normalisation in `get_preview_code` changes nothing |
| PreviewCodes.RedeemedFields | preview_code_repository.py:80-84 | a redeemed code is used, by the user, at the first clock reading; its key and unrelated fields are kept |
| PreviewCodes.ReleasedFields | preview_code_repository.py:194-198 | a reset code is unused with no user and no time; its key and unrelated fields are kept; resetting again changes nothing |
| PreviewCodes.RecentlyUsed | preview_code_repository.py:126-137 | at most ten used codes, all used codes when there are ten or fewer, most recently used first |
| PreviewCodes.RecentlyUsedAreNewest | preview_code_repository.py:126-137 | a used code left out of the recent list was used no later than every listed one |
| PreviewCodes.Usages | preview_code_repository.py:126-131 | one usage entry per listed code, in order |
| PreviewCodes.ComputeStats | preview_code_repository.py:115-149 | total is the number of codes; used counts the used ones; remaining is the rest; the recent usage lists the most recently used codes |
| PreviewCodes.StatsExtremes | preview_code_repository.py:120-122 | all codes are used exactly when used equals total; none are used exactly when used is zero |
| PreviewCodes.NewCodes | preview_code_repository.py:156-159 | one new code record per requested code |
| PreviewCodes.StillPresent | preview_code_repository.py:156-162 | a code created earlier in the bulk loop is still present after a later one |
| PreviewCodes.CountResettable | preview_code_repository.py:191-206 | the reset count is at most the number of codes |
| PreviewCodes.CodeKeysMember | preview_code_repository.py:177-182 | every listed code's key is among the keys `delete_all` deletes |
| PreviewCodes.ResetSettles | preview_code_repository.py:191-209 | a reset keeps each document's presence, key and code; a reset preview code can no longer be reset; resetting again, with any clock, changes nothing |
| PreviewCodes.ResetStep | preview_code_repository.py:191-209 | visiting one more listed code extends the reset to it and leaves the other documents as they were |
| PreviewCodes.ResetComplete | preview_code_repository.py:191-211 | once the loop has visited every preview code, every document is its reset |
| PreviewCodes.PreviewCodeRepository.constructor | preview_code_repository.py:18-19 | the repository works on the given container, keyed by code |
| PreviewCodes.PreviewCodeRepository.Create | preview_code_repository.py:21-41 | stores the new unused code exactly when it is not present, and otherwise fails with no change; afterwards the code is present and nothing else changed |
| PreviewCodes.PreviewCodeRepository.Get | preview_code_repository.py:43-61 | the stored code under the normalised code, or None |
| PreviewCodes.PreviewCodeRepository.ValidateAndUse | preview_code_repository.py:63-95 | an unknown code is INVALID_CODE and a used code CODE_ALREADY_USED, both with no change; an unused code is marked used by the user and reported valid; no other code changes |
| PreviewCodes.PreviewCodeRepository.Redeem | preview_code_repository.py:81-89 | a stored unused code is marked used by the user, reported valid, and no other code changes |
| PreviewCodes.PreviewCodeRepository.GetAll | preview_code_repository.py:97-113 | exactly the documents typed as preview codes |
| PreviewCodes.PreviewCodeRepository.GetStats | preview_code_repository.py:115-149 | the statistics of all preview codes |
| PreviewCodes.PreviewCodeRepository.BulkCreate | preview_code_repository.py:151-168 | appends the new records for the codes that could be created, in order, skipping failures; afterwards every requested code is present |
| PreviewCodes.PreviewCodeRepository.CreateNext | preview_code_repository.py:156-162 | one turn of the bulk loop keeps the created list a subsequence of the new records, and the codes so far present |
| PreviewCodes.PreviewCodeRepository.Reset | preview_code_repository.py:170-225 | `delete_all` removes exactly the listed codes' keys and counts the deletions; otherwise every document becomes its reset (a used code stored under its own code is released at its own clock reading, every other document is kept) and the count is the number of resettable codes |
| PreviewCodes.PreviewCodeRepository.DeleteAll | preview_code_repository.py:176-188 | removes exactly the listed codes' keys, and the count is the number of documents removed |
| PreviewCodes.PreviewCodeRepository.DeleteNext | preview_code_repository.py:177-186 | one turn of the delete loop removes one more code's key |
| PreviewCodes.PreviewCodeRepository.ReleaseAll | preview_code_repository.py:191-211 | every document becomes its reset, and the count is the number of resettable codes |
| PreviewCodes.PreviewCodeRepository.ReleaseNext | preview_code_repository.py:191-209 | one turn of the reset loop extends the reset to one more listed code and counts it when it was resettable |
| PreviewCodes.PreviewCodeRepository.ReleaseOne | preview_code_repository.py:192-209 | a used code replaceable under its own code, whose release can be sent, is released with no other change; otherwise nothing changes |
| Profiles.FirstOfFacts | user_profile_repository.py:87-101 | the first result is a stored document of the user and type; none exactly when no such document exists |
| Profiles.OwnedKey | user_profile_repository.py:145 | a stored document of the user is found under its id in the user's partition |
| Profiles.RemovalKeepsKind | user_profile_repository.py:144-149 | removing a document of another type leaves a type's query result unchanged |
| Profiles.ProfileRecordFields | user_profile_repository.py:34-57 | the new profile is keyed by its fresh id in the user's partition; `first_run` defaults to true and `onboarding_completed` to false; empty life areas become the empty list |
| Profiles.ProfileRecordSerialisable | user_profile_repository.py:34-57 | a profile built from a request without datetimes can be sent to the store |
| Profiles.KnownFields | user_profile_repository.py:116-119 | only fields the profile already has are set, to the update's values; the rest are kept |
| Profiles.KnownFieldsIdempotent | user_profile_repository.py:116-119 | applying the same updates twice is applying them once |
| Profiles.SetKnownFields | user_profile_repository.py:117-119 | the field loop computes exactly the known-fields update |
| Profiles.ProfileUpdateKeepsKey | user_profile_repository.py:115-127 | an update that does not name the id or user id keeps the profile's key and type, and stamps both times |
| Profiles.TouchedSerialisable | user_profile_repository.py:116-127 | an updated profile can be sent exactly when every update value it takes in, other than the two stamps, can |
| Profiles.InitialOnboardingKey | user_profile_repository.py:165-175 | the initial onboarding status is keyed by its fresh id in the user's partition, typed as onboarding, and holds no datetime |
| Profiles.AdvancedSteps | user_profile_repository.py:215-220 | the step becomes current and is recorded once; earlier completed steps are kept; no step repeats |
| Profiles.AdvancedKeepsKey | user_profile_repository.py:207-241 | advancing keeps the key and type and stamps `updated_at` |
| Profiles.AdvancedInterview | user_profile_repository.py:222-229 | non-empty interview data is merged into the responses, except `welcome_shown`, which sets the flag; empty data changes neither |
| Profiles.AdvancedCompletion | user_profile_repository.py:231-234 | the completed step marks onboarding complete and stamps it; any other step leaves both alone |
| Profiles.AdvancedSerialisable | user_profile_repository.py:222-241 | an advanced status can be sent exactly when the interview data can |
| Profiles.InitialAtStart | user_profile_repository.py:64-71 | the initial status is at the welcome step with nothing completed |
| Profiles.ResetIsInitial | user_profile_repository.py:275-282 | a reset status is back at the start with no completion time |
| Profiles.ResetKeepsKey | user_profile_repository.py:285-286 | a reset keeps the key and type |
| Profiles.ResetSerialisable | user_profile_repository.py:275-286 | a reset status can always be sent |
| Profiles.Truncated | user_profile_repository.py:307 | a title is cut to its first 100 characters, and a shorter one is kept |
| Profiles.WithMessageCount | user_profile_repository.py:332-335 | a message is appended; the count equals the number of messages; key and type are kept; `updated_at` is stamped |
| Profiles.WithMessageSerialisable | user_profile_repository.py:332-339 | a session with a message appended can be sent exactly when the message can |
| Profiles.RecentAreNewest | user_profile_repository.py:375-380 | a session of the user left out of the recent list is no newer than every listed one |
| Profiles.RecentShape | user_profile_repository.py:372-393 | at most the limit, all the user's sessions, most recently updated first |
| Profiles.RecentComplete | user_profile_repository.py:372-393 | when the user has no more sessions than the limit, all of them are listed |
| Profiles.SessionKeysFresh | user_profile_repository.py:419-420 | a session whose id differs from every listed one is not among their keys |
| Profiles.PrefixWithin | user_profile_repository.py:379 | `OFFSET 0 LIMIT n` takes documents from the ordered result only |
| Profiles.RecentFromStore | user_profile_repository.py:372-393 | the recent list holds stored documents, each at most as often as stored |
| Profiles.RecentDistinct | user_profile_repository.py:417-420 | the recent sessions are stored under their ids and have distinct ids |
| Profiles.OnboardingRepository.constructor | user_profile_repository.py:162-163 | the repository works on the profiles container |
| Profiles.OnboardingRepository.Create | user_profile_repository.py:165-182 | stores the initial status exactly when its key is new, and otherwise changes nothing |
| Profiles.OnboardingRepository.Get | user_profile_repository.py:184-205 | the first onboarding status of the user, or None |
| Profiles.OnboardingRepository.UpdateStep | user_profile_repository.py:207-248 | the stored status, or a newly created one, is advanced and written back under its key when the interview data holds no datetime; otherwise None, leaving only the created status; a failed creation gives None with no change |
| Profiles.OnboardingRepository.Advance | user_profile_repository.py:236-241 | the advanced status is written back under its key exactly when the interview data holds no datetime; otherwise nothing changes |
| Profiles.OnboardingRepository.DeleteStatus | user_profile_repository.py:250-263 | succeeds; removes the user's first onboarding status if any, and nothing else |
| Profiles.OnboardingRepository.Reset | user_profile_repository.py:265-293 | a missing status is created initial; a stored one is written back at the start |
| Profiles.ChatSessionRepository.constructor | user_profile_repository.py:299-300 | the repository works on the profiles container |
| Profiles.ChatSessionRepository.Create | user_profile_repository.py:302-322 | stores the new session, with a truncated title, exactly when its key is new |
| Profiles.ChatSessionRepository.Get | user_profile_repository.py:348-370 | the user's session with that id, or None |
| Profiles.ChatSessionRepository.AddMessage | user_profile_repository.py:324-346 | a missing session gives None and no change; otherwise the session with the message appended is written back under its key when the message holds no datetime, and nothing changes when it does |
| Profiles.ChatSessionRepository.GetRecent | user_profile_repository.py:372-397 | at most the limit of the user's sessions, newest first, and all of them when there are no more than the limit |
| Profiles.ChatSessionRepository.DeleteSession | user_profile_repository.py:399-412 | reports whether the session existed and removes exactly it |
| Profiles.ChatSessionRepository.DeleteAll | user_profile_repository.py:414-427 | succeeds; removes exactly the keys of the user's 100 most recent sessions |
| Profiles.ChatSessionRepository.DeleteNext | user_profile_repository.py:419-420 | one turn of the delete loop removes one more session's key |
| Profiles.UserProfileRepository.constructor | user_profile_repository.py:22-23 | the repository works on the profiles container, alongside the onboarding and chat repositories |
| Profiles.UserProfileRepository.GetProfile | user_profile_repository.py:84-105 | the user's first profile, or None exactly when the user has none |
| Profiles.UserProfileRepository.CreateProfile | user_profile_repository.py:25-82 | an existing profile, a taken key or a profile holding a datetime fails with no change; otherwise the profile and the initial onboarding status are appended; a failed second write leaves the profile stored |
| Profiles.UserProfileRepository.CreatePair | user_profile_repository.py:55-75 | the two writes of a profile creation, each succeeding exactly when its record can be sent and its key is new |
| Profiles.UserProfileRepository.UpdateProfile | user_profile_repository.py:107-134 | a missing profile gives None; otherwise the profile with its known fields updated and both stamps is written back when it can be sent and its key is kept, and nothing changes when not |
| Profiles.UserProfileRepository.DeleteProfile | user_profile_repository.py:136-156 | reports whether a profile existed; when it did, the profile, the onboarding status and the recent sessions are removed and nothing else |
| Profiles.UserProfileRepository.RemoveProfile | user_profile_repository.py:144-145 | removes the profile only, leaving the user's onboarding and chat documents |
| Profiles.ChatsKept | user_profile_repository.py:148 | deleting the onboarding status leaves the user's sessions unchanged |
| Profiles.CascadeCompose | user_profile_repository.py:144-149 | the three deletions together remove exactly the profile, status and session keys |
| Profiles.CreatedProfileFound | user_profile_repository.py:25-82 | after a successful creation, both the profile and the onboarding status are found |
| Handlers.HealthCheck | function_app.py:36-47 | 200 with CORS headers; healthy, the service name, and a timestamp whose ISO text reads back as now |
| Handlers.Preflight | function_app.py:338-353 | OPTIONS answers 200 with an empty body and the CORS headers |
| Handlers.KeepTasks | function_app.py:71-89 | a filter keeps exactly the tasks that pass, as a subsequence of the list, each as often as it occurs |
| Handlers.KeepTwice | function_app.py:71-89 | filtering by status and then by priority is filtering by both |
| Handlers.KeepSame | function_app.py:71-89 | filters that agree on the tasks give the same result |
| Handlers.KeepAll | function_app.py:71-89 | a filter every task passes keeps the list |
| Handlers.GetTasks | function_app.py:50-106 | a missing user gives 400 before any read; a read error gives 500; an invalid status, then an invalid priority, gives 400 naming it; otherwise 200 with exactly the user's tasks passing both filters |
| Handlers.GetOverdueTasks | function_app.py:301-335 | a missing user gives 400; a read error gives 500; otherwise 200 with exactly the user's tasks that are due before now and not completed |
| Handlers.CreateTask | function_app.py:109-155 | invalid JSON and validation errors give 400 with no change; otherwise the pending task built from the request is stored and returned with 201; a taken key gives 500 with no change |
| Handlers.GetTaskById | function_app.py:158-195 | a missing user gives 400; no such task gives 404; a stored task gives 200 with it; a stored record that does not read back gives 500 |
| Handlers.UpdateTask | function_app.py:198-258 | a missing user, invalid JSON or a validation error gives 400 with no change; no such task gives 404; an update that sets a due date gives 500 with no change, because the datetime cannot be sent; otherwise the set, non-None fields are written back with a fresh stamp, and the answer is 200 with the task or 500 |
| Handlers.UpdateKeepsKey | function_app.py:222-236 | an update request cannot move a task to another key |
| Handlers.DueDateBlocksUpdate | function_app.py:236-237 | the update body can be sent exactly when the request does not set a due date |
| Handlers.RespondToUpdate | function_app.py:236-251 | no stored task gives 404; an update that cannot be sent gives 500 with no change; otherwise the update is written and answered 200 with the task, or 500 when it does not read back |
| Handlers.DeleteTask | function_app.py:261-298 | a missing user gives 400 with no change; otherwise the task is removed, with 200 when it existed and 404 when not |
| Handlers.ListEntities | function_app.py:360-368 | a missing user is answered 400; otherwise the listing is for the user and the entity's document type |
| Handlers.ListEntitiesReply | function_app.py:368-374 | a listing gives 200 with the records; a failure gives 500 |
| Handlers.CreateEntity | function_app.py:377-384 | an invalid request is answered 400 with its error; a valid one is created as given |
| Handlers.CreateEntityReply | function_app.py:384-389 | a created record gives 201 with it; a failure gives 400 with its error |
| Handlers.UpdateEntity | function_app.py:392-405 | a missing user or an invalid request gives 400; otherwise the update carries exactly the request's non-None fields for the user's record |
| Handlers.UpdateEntityReply | function_app.py:405-412 | no record gives 404 naming the entity; an updated record gives 200; a failure gives 400 |
| Handlers.DeleteEntity | function_app.py:415-424 | a missing user is answered 400; otherwise the delete is for the user's record |
| Handlers.DeleteEntityReply | function_app.py:424-431 | a deletion gives 200 naming the entity; no record gives 404; a failure gives 500 |

## Left out

- The Cosmos client, `cosmos_config` and lazy container caching: a repository works on a `Container` given to it. A container is one key-unique sequence of records.
- Query text is not parsed. Each SQL query is modelled by the predicate and order it expresses.
- A query whose `ORDER BY` field is missing or not a string sorts that document as the empty string. Cosmos's ordering of mixed types is not modelled.
- The Azure Functions runtime, routing, logging and JSON serialisation are not modelled. A response carries a structured `Body`. JSON encoding of a stored body is modelled only where it fails: a body holding a datetime is refused before anything is sent, as Python's `TypeError`. That check comes before the key, id and not-found checks.
- Concurrency and retries are not modelled. Every operation runs alone against the container.
- Exceptions are modelled only where the code catches and handles them: not-found answers, conflicts on create, failed conversions and bodies that cannot be serialised. Network errors and other server errors are not modelled.
- The unseen models (`Note`, `Folder`, `PreviewCode`, `UserProfile`, `OnboardingStatus`, `ChatSession`, `ChatMessage`, the goal, habit and project models, `DocumentType`) are not part of this model.
  - Their records are kept as records.
  - Their conversions leave a record unchanged.
  - Only fields the repository code itself sets are written.
- Goal, habit and project validation (`Create*Request`, `Update*Request`) is not part of this model. `CreateEntity` and `UpdateEntity` take the validation result as a parameter.
- Handlers.ListEntities: the goal, habit and project handlers take the repository's answer as a parameter instead of calling the generic repository.
- GenericRepo.GenericRepository.GetDocumentsByUserAndType is modelled at the task type only. That is the only model whose conversions are visible.
- The `Task` model has no `document_type` field. Tasks created through `create_document` therefore do not match the `task` type query. The model follows the code.
- The task handlers call the generic repository, as the code does. `TaskRepository` keeps the task-specific queries and update.
  - `create_task`, `get_task_by_id` and `delete_task` (task_repository.py:27-63 and 128-142) do what the generic create, read and delete do at the task type, so `CreateDocument`, `GetDocumentById` and `DeleteDocument` stand for them.
- Notes.RecordRepository models both `NotesRepository` and `FoldersRepository`. Their methods differ only in field and container names.
- PreviewCodes.ComputeStats: the usage rate (`round(used / total * 100, 2)`) is left out, because floating point is not modelled.
- PreviewCodes.PreviewCodeRepository.ValidateAndUse: the server-error path (any exception) is not reached in the model, because the model's replace cannot fail for a stored code under its own key whose redeemed record holds no datetime.
- A test expects the error code `CODE_NOT_FOUND` for an unknown preview code. The code returns `INVALID_CODE`, and the model follows the code.
- Profiles.OnboardingRepository.Create: `OnboardingStatus(user_id=...)` is taken to have the same defaults as the explicit construction at user_profile_repository.py:64-71.
- Profiles.UserProfileRepository.UpdateProfile: `hasattr(existing_profile, field)` is modelled as the field being present in the stored record.
- Profiles.OnboardingRepository.UpdateStep: the model does not capture that `interview_data.pop` changes the caller's dictionary.
- Profiles.ChatSessionRepository.GetRecent: a negative limit returns no sessions. Cosmos would reject it.
- Strings.Upper covers ASCII letters only; Unicode case mapping is not modelled.
- Strings.Strip treats tab through carriage return, 0x1C to 0x1F and space as white space; the other Unicode white space is not modelled.
- Pydantic's coercions (an integer for a string, a string for a datetime in a request) are not modelled. Values must already have the declared type.
- `IsoTime` represents an instant as a count below 10^18, rendered as fixed-width digits. Its text stands in for the calendar layout of `isoformat`. Time zones and offsets are not modelled.
- The comprehension at function_app.py:227, whose value is never used, is not modelled.
- The debug, admin and migration scripts are not part of this model.

## Findings

| source | as written | input that shows it | evidently intended | confidence | as-written member | corrected member |
|---|---|---|---|---|---|---|
| notes_repository.py:117-127 (and 294-304 for folders) | `updated_at` is set to a `datetime` object and the record is passed to `replace_item`, whose JSON encoding cannot serialise it | any stored note or folder and any update data | `updated_at` stored as ISO text, as `to_cosmos_dict` and the generic repository do, so the update is written | not executed | Notes.RecordRepository.Update, Notes.MergedFields | Notes.RecordRepository.UpdateCorrected, Notes.MergedIsoFields |
