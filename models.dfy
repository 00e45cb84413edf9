/**
 * The task document model: the status and priority enums, the `Task` record with
 * its defaults and validation, and the two conversions between a task and its
 * stored form (timestamps as ISO strings), plus the create and update request models.
 */
module Models {
  import opened Wrappers
  import opened IsoTime
  import opened Values

  datatype TaskStatus = Pending | InProgress | Completed | Cancelled

  datatype TaskPriority = Low | Medium | High | Urgent

  function StatusCode(s: TaskStatus): string
  {
    match s
    case Pending => "pending"
    case InProgress => "in_progress"
    case Completed => "completed"
    case Cancelled => "cancelled"
  }

  function PriorityCode(p: TaskPriority): string
  {
    match p
    case Low => "low"
    case Medium => "medium"
    case High => "high"
    case Urgent => "urgent"
  }

  /** `TaskStatus(code)`: `None` where Python raises `ValueError`. */
  function ParseStatus(code: string): (r: Option<TaskStatus>)
    ensures r.Some? ==> StatusCode(r.value) == code
    ensures r.None? ==> forall s :: StatusCode(s) != code
  {
    if code == "pending" then Some(Pending)
    else if code == "in_progress" then Some(InProgress)
    else if code == "completed" then Some(Completed)
    else if code == "cancelled" then Some(Cancelled)
    else None
  }

  /** `TaskPriority(code)`: `None` where Python raises `ValueError`. */
  function ParsePriority(code: string): (r: Option<TaskPriority>)
    ensures r.Some? ==> PriorityCode(r.value) == code
    ensures r.None? ==> forall p :: PriorityCode(p) != code
  {
    if code == "low" then Some(Low)
    else if code == "medium" then Some(Medium)
    else if code == "high" then Some(High)
    else if code == "urgent" then Some(Urgent)
    else None
  }

  /** The status codes are exactly the four strings, and each status has its own. */
  lemma StatusCodes(code: string, s1: TaskStatus, s2: TaskStatus)
    ensures ParseStatus(code).Some? <==> code in {"pending", "in_progress", "completed", "cancelled"}
    ensures ParseStatus(StatusCode(s1)) == Some(s1)
    ensures StatusCode(s1) == StatusCode(s2) ==> s1 == s2
  {
  }

  /** The priority codes are exactly the four strings, and each priority has its own. */
  lemma PriorityCodes(code: string, p1: TaskPriority, p2: TaskPriority)
    ensures ParsePriority(code).Some? <==> code in {"low", "medium", "high", "urgent"}
    ensures ParsePriority(PriorityCode(p1)) == Some(p1)
    ensures PriorityCode(p1) == PriorityCode(p2) ==> p1 == p2
  {
  }

  datatype Task = Task(
    id: Option<string>,
    title: string,
    description: Option<string>,
    status: TaskStatus,
    priority: TaskPriority,
    dueDate: Option<Instant>,
    createdAt: Instant,
    updatedAt: Instant,
    completedAt: Option<Instant>,
    tags: seq<string>,
    userId: string)

  /** The four fields the conversions rewrite between a native datetime and an ISO string. */
  const TimeFields: set<string> := {"created_at", "updated_at", "completed_at", "due_date"}

  function OptStr(o: Option<string>): Value
  {
    match o
    case None => Null
    case Some(s) => Str(s)
  }

  function OptTime(o: Option<Instant>): Value
  {
    match o
    case None => Null
    case Some(t) => Time(t)
  }

  /** `model_dump()`: every field, enums as their codes, datetimes as native values. */
  function Dump(t: Task): (r: Record)
  {
    map[
      "id" := OptStr(t.id),
      "title" := Str(t.title),
      "description" := OptStr(t.description),
      "status" := Str(StatusCode(t.status)),
      "priority" := Str(PriorityCode(t.priority)),
      "due_date" := OptTime(t.dueDate),
      "created_at" := Time(t.createdAt),
      "updated_at" := Time(t.updatedAt),
      "completed_at" := OptTime(t.completedAt),
      "tags" := Arr(StrValues(t.tags)),
      "user_id" := Str(t.userId)
    ]
  }

  /** A timestamp field as stored: a native datetime becomes its ISO string. */
  function Encoded(v: Value): (w: Value)
    ensures !w.Time?
    ensures v.Time? ==> w == Str(IsoFormat(v.t))
    ensures !v.Time? ==> w == v
  {
    if Truthy(v) && v.Time? then Str(IsoFormat(v.t)) else v
  }

  /** The dict after the ISO-encoding loop over the timestamp fields. */
  function EncodeTimes(data: Record): (r: Record)
    ensures r.Keys == data.Keys
    ensures forall k :: k in data && k !in TimeFields ==> r[k] == data[k]
    ensures forall k :: k in data && k in TimeFields ==> r[k] == Encoded(data[k])
  {
    map k | k in data :: if k in TimeFields then Encoded(data[k]) else data[k]
  }

  /** A stored timestamp field can be read back: it is not a non-empty string that fails to parse. */
  predicate Decodable(v: Value)
  {
    !(Truthy(v) && v.Str?) || FromIsoFormat(v.s).Some?
  }

  /** A timestamp field as read back: a non-empty string becomes the datetime it denotes. */
  function Decoded(v: Value): (w: Value)
    requires Decodable(v)
  {
    if Truthy(v) && v.Str? then Time(FromIsoFormat(v.s).value) else v
  }

  /**
   * The parsing loop of `from_cosmos_dict`: each timestamp field holding a non-empty
   * string is parsed; a string that is not an ISO timestamp raises.
   */
  function DecodeTimes(data: Record): (r: Result<Record>)
    ensures r.Ok? <==> forall k :: k in data && k in TimeFields ==> Decodable(data[k])
    ensures r.Ok? ==> r.value.Keys == data.Keys
    ensures r.Ok? ==> forall k :: k in data && k !in TimeFields ==> r.value[k] == data[k]
    ensures r.Ok? ==> forall k :: k in data && k in TimeFields ==> r.value[k] == Decoded(data[k])
  {
    if forall k :: k in data && k in TimeFields ==> Decodable(data[k]) then
      Ok(map k | k in data :: if k in TimeFields then Decoded(data[k]) else data[k])
    else
      Err("Invalid isoformat string")
  }

  /** `data.pop('id')` when `data.get('id') is None`. */
  function DropNullId(data: Record): (r: Record)
    ensures Get(data, "id") == Null ==> r == data - {"id"}
    ensures Get(data, "id") != Null ==> r == data
  {
    if Get(data, "id") == Null then data - {"id"} else data
  }

  // Looking a field up in `Dump` costs the verifier one string comparison per
  // entry, so the lookups are stated once, a few per lemma.

  lemma DumpIdentity(t: Task)
    ensures Dump(t)["id"] == OptStr(t.id) && Dump(t)["title"] == Str(t.title)
    ensures Dump(t)["user_id"] == Str(t.userId)
  {
  }

  lemma DumpDetails(t: Task)
    ensures Dump(t)["description"] == OptStr(t.description) && Dump(t)["tags"] == Arr(StrValues(t.tags))
  {
  }

  lemma DumpEnums(t: Task)
    ensures Dump(t)["status"] == Str(StatusCode(t.status)) && Dump(t)["priority"] == Str(PriorityCode(t.priority))
  {
  }

  lemma DumpStamps(t: Task)
    ensures Dump(t)["created_at"] == Time(t.createdAt) && Dump(t)["updated_at"] == Time(t.updatedAt)
  {
  }

  lemma DumpDates(t: Task)
    ensures Dump(t)["due_date"] == OptTime(t.dueDate) && Dump(t)["completed_at"] == OptTime(t.completedAt)
  {
  }

  /** `Task.to_cosmos_dict`. */
  function ToCosmosDict(t: Task): (r: Record)
    ensures "id" in r <==> t.id.Some?
    ensures t.id.Some? ==> r["id"] == Str(t.id.value)
    ensures r.Keys == Dump(t).Keys - (if t.id.None? then {"id"} else {})
    ensures forall k :: k in r && k !in TimeFields ==> r[k] == Dump(t)[k]
    ensures forall k :: k in r && k in TimeFields ==> r[k] == Encoded(Dump(t)[k])
  {
    DumpIdentity(t);
    EncodeTimes(DropNullId(Dump(t)))
  }

  /** The timestamp fields of the stored form are ISO strings, or `null` when unset. */
  lemma StoredTimes(t: Task)
    ensures Get(ToCosmosDict(t), "created_at") == Str(IsoFormat(t.createdAt))
    ensures Get(ToCosmosDict(t), "updated_at") == Str(IsoFormat(t.updatedAt))
    ensures Get(ToCosmosDict(t), "completed_at") == if t.completedAt.Some? then Str(IsoFormat(t.completedAt.value)) else Null
    ensures Get(ToCosmosDict(t), "due_date") == if t.dueDate.Some? then Str(IsoFormat(t.dueDate.value)) else Null
  {
    DumpStamps(t);
    DumpDates(t);
    var r := ToCosmosDict(t);
    assert "created_at" in r && "updated_at" in r && "completed_at" in r && "due_date" in r;
  }

  /** A value a dump may hold: a string, `null`, the tag list or, in a timestamp field, a native datetime. */
  predicate DumpValue(k: string, v: Value, tags: seq<string>)
  {
    v.Null? || v.Str? || (v.Time? && k in TimeFields) || v == Arr(StrValues(tags))
  }

  lemma DumpShape(t: Task, k: string)
    requires k in Dump(t)
    ensures DumpValue(k, Dump(t)[k], t.tags)
  {
    if k == "tags" {
      DumpDetails(t);
    } else if k in TimeFields {
      DumpStamps(t);
      DumpDates(t);
    }
  }

  /** Encoding the timestamps of such a dict leaves plain JSON. */
  lemma EncodedSerialisable(d: Record, tags: seq<string>)
    requires forall k :: k in d ==> DumpValue(k, d[k], tags)
    ensures SerialisableRecord(EncodeTimes(d))
  {
    StrValuesSerialisable(tags);
  }

  /** The stored form is plain JSON: every timestamp is an ISO string, and the tags are strings. */
  lemma StoredSerialisable(t: Task)
    ensures SerialisableRecord(ToCosmosDict(t))
  {
    var d := DropNullId(Dump(t));
    forall k | k in d
      ensures DumpValue(k, d[k], t.tags)
    {
      DumpShape(t, k);
    }
    EncodedSerialisable(d, t.tags);
  }

  // Pydantic field validation, one function per field shape.

  /** A required `str` field. */
  function FieldStr(d: Record, k: string): (r: Result<string>)
    ensures r.Ok? <==> k in d && d[k].Str?
    ensures r.Ok? ==> d[k] == Str(r.value)
  {
    if k in d && d[k].Str? then Ok(d[k].s) else Err("Field required or not a string: " + k)
  }

  /** An `Optional[str] = None` field. */
  function FieldOptStr(d: Record, k: string): (r: Result<Option<string>>)
    ensures r.Ok? <==> Get(d, k).Null? || Get(d, k).Str?
    ensures r == Ok(None) <==> Get(d, k).Null?
    ensures r.Ok? && r.value.Some? ==> Get(d, k) == Str(r.value.value)
  {
    match Get(d, k)
    case Null => Ok(None)
    case Str(s) => Ok(Some(s))
    case _ => Err("Input should be a valid string: " + k)
  }

  /** A datetime value: a native datetime, or a string in ISO format. */
  function TimeOf(v: Value): (r: Option<Instant>)
    ensures v.Time? ==> r == Some(v.t)
  {
    match v
    case Time(t) => Some(t)
    case Str(s) => FromIsoFormat(s)
    case _ => None
  }

  /** An `Optional[datetime] = None` field. */
  function FieldOptTime(d: Record, k: string): (r: Result<Option<Instant>>)
    ensures r == Ok(None) <==> Get(d, k).Null?
    ensures Get(d, k).Time? ==> r == Ok(Some(Get(d, k).t))
    ensures r.Ok? && r.value.Some? ==> TimeOf(Get(d, k)) == r.value
  {
    if Get(d, k).Null? then Ok(None)
    else match TimeOf(Get(d, k))
      case Some(t) => Ok(Some(t))
      case None => Err("Input should be a valid datetime: " + k)
  }

  /** A `datetime` field whose default factory reads the clock (`now`). */
  function FieldTime(d: Record, k: string, now: Instant): (r: Result<Instant>)
    ensures k !in d ==> r == Ok(now)
    ensures k in d && d[k].Time? ==> r == Ok(d[k].t)
    ensures k in d && d[k].Null? ==> r.Err?
  {
    if k !in d then Ok(now)
    else match TimeOf(d[k])
      case Some(t) => Ok(t)
      case None => Err("Input should be a valid datetime: " + k)
  }

  /** The strings of a list whose every element is a string. */
  function StrList(es: seq<Value>): (r: Option<seq<string>>)
    ensures r.Some? ==> |r.value| == |es| && forall i :: 0 <= i < |es| ==> es[i] == Str(r.value[i])
    ensures r.None? ==> exists i :: 0 <= i < |es| && !es[i].Str?
  {
    if es == [] then Some([])
    else if !es[0].Str? then None
    else match StrList(es[1..])
      case None => None
      case Some(rest) => Some([es[0].s] + rest)
  }

  lemma {:induction false} StrListOfStrValues(xs: seq<string>)
    ensures StrList(StrValues(xs)) == Some(xs)
  {
    if xs != [] {
      StrListOfStrValues(xs[1..]);
      var es := StrValues(xs);
      assert es[0] == Str(xs[0]);
      assert es[1..] == StrValues(xs[1..]);
      assert [xs[0]] + xs[1..] == xs;
    }
  }

  /** A `List[str]` field with an empty default. */
  function FieldTags(d: Record, k: string): (r: Result<seq<string>>)
    ensures k !in d ==> r == Ok([])
    ensures r.Ok? && k in d ==> d[k] == Arr(StrValues(r.value))
  {
    if k !in d then Ok([])
    else match d[k]
      case Arr(es) =>
        (match StrList(es)
         case Some(xs) => assert es == StrValues(xs); Ok(xs)
         case None => Err("Input should be a valid list of strings: " + k))
      case _ => Err("Input should be a valid list: " + k)
  }

  /** A `TaskStatus` field defaulting to `pending`. */
  function FieldStatus(d: Record): (r: Result<TaskStatus>)
    ensures "status" !in d ==> r == Ok(Pending)
    ensures r.Ok? && "status" in d ==> d["status"] == Str(StatusCode(r.value))
    ensures "status" in d && d["status"].Str? && ParseStatus(d["status"].s).Some? ==> r.Ok?
  {
    if "status" !in d then Ok(Pending)
    else match d["status"]
      case Str(c) =>
        (match ParseStatus(c)
         case Some(s) => Ok(s)
         case None => Err("Input should be 'pending', 'in_progress', 'completed' or 'cancelled'"))
      case _ => Err("Input should be a valid status")
  }

  /** A `TaskPriority` field defaulting to `medium`. */
  function FieldPriority(d: Record): (r: Result<TaskPriority>)
    ensures "priority" !in d ==> r == Ok(Medium)
    ensures r.Ok? && "priority" in d ==> d["priority"] == Str(PriorityCode(r.value))
    ensures "priority" in d && d["priority"].Str? && ParsePriority(d["priority"].s).Some? ==> r.Ok?
  {
    if "priority" !in d then Ok(Medium)
    else match d["priority"]
      case Str(c) =>
        (match ParsePriority(c)
         case Some(p) => Ok(p)
         case None => Err("Input should be 'low', 'medium', 'high' or 'urgent'"))
      case _ => Err("Input should be a valid priority")
  }

  /**
   * The two clock readings taken while a `Task` is validated: the
   * `datetime.utcnow` default factories of `created_at` and `updated_at` each
   * read the clock once, so the two may differ.
   */
  datatype Readings = Readings(created: Instant, updated: Instant)

  /**
   * `Task(**data)`: validates every field and fills in the defaults; keys that are
   * not fields of `Task` are ignored.
   */
  function Construct(d: Record, now: Readings): (r: Result<Task>)
    ensures r.Ok? ==> "title" in d && "user_id" in d && Str(r.value.title) == d["title"] && Str(r.value.userId) == d["user_id"]
    ensures r.Ok? ==> FieldStatus(d) == Ok(r.value.status) && FieldPriority(d) == Ok(r.value.priority)
    ensures r.Ok? ==> FieldOptTime(d, "due_date") == Ok(r.value.dueDate) && FieldTime(d, "created_at", now.created) == Ok(r.value.createdAt)
    ensures r.Ok? ==> FieldTime(d, "updated_at", now.updated) == Ok(r.value.updatedAt)
    ensures ("title" !in d || !d["title"].Str?) ==> r.Err?
    ensures ("user_id" !in d || !d["user_id"].Str?) ==> r.Err?
  {
    var id :- FieldOptStr(d, "id");
    var title :- FieldStr(d, "title");
    var description :- FieldOptStr(d, "description");
    var status :- FieldStatus(d);
    var priority :- FieldPriority(d);
    var dueDate :- FieldOptTime(d, "due_date");
    var createdAt :- FieldTime(d, "created_at", now.created);
    var updatedAt :- FieldTime(d, "updated_at", now.updated);
    var completedAt :- FieldOptTime(d, "completed_at");
    var tags :- FieldTags(d, "tags");
    var userId :- FieldStr(d, "user_id");
    Ok(Task(id, title, description, status, priority, dueDate, createdAt, updatedAt, completedAt, tags, userId))
  }

  /** `Task.from_cosmos_dict`: parse the timestamp strings, then validate. */
  function FromCosmosDict(data: Record, now: Readings): (r: Result<Task>)
    ensures (exists k :: k in data && k in TimeFields && !Decodable(data[k])) ==> r.Err?
    ensures r.Ok? ==> "title" in data && "user_id" in data
    ensures r.Ok? && data["title"].Str? ==> r.value.title == data["title"].s
    ensures r.Ok? && data["user_id"].Str? ==> r.value.userId == data["user_id"].s
  {
    var parsed :- DecodeTimes(data);
    Construct(parsed, now)
  }

  /** A task read back from a record: its due date and creation time are the ones the record's strings denote. */
  lemma ReadTimes(data: Record, now: Readings)
    requires FromCosmosDict(data, now).Ok?
    ensures var t := FromCosmosDict(data, now).value;
      && (Get(data, "due_date").Null? ==> t.dueDate.None?)
      && (Get(data, "due_date").Str? ==> t.dueDate.Some? && IsoFormat(t.dueDate.value) == Get(data, "due_date").s)
      && (Get(data, "created_at").Str? ==> IsoFormat(t.createdAt) == Get(data, "created_at").s)
  {
    if Get(data, "due_date").Str? {
      var s := Get(data, "due_date").s;
      if s != [] {
        IsoCanonical(s);
      }
    }
    if Get(data, "created_at").Str? {
      var s := Get(data, "created_at").s;
      if s != [] {
        IsoCanonical(s);
      }
    }
  }

  /** A task read back from a record with a `status` field carries the status that field names. */
  lemma ReadStatus(data: Record, now: Readings)
    requires FromCosmosDict(data, now).Ok? && "status" in data
    ensures data["status"] == Str(StatusCode(FromCosmosDict(data, now).value.status))
  {
  }

  /** A task read back from a record with a `priority` field carries the priority that field names. */
  lemma ReadPriority(data: Record, now: Readings)
    requires FromCosmosDict(data, now).Ok? && "priority" in data
    ensures data["priority"] == Str(PriorityCode(FromCosmosDict(data, now).value.priority))
  {
  }

  /** Overdue, as the handler decides it: a due date before `now`, and not completed. */
  predicate IsOverdue(t: Task, now: Instant)
  {
    t.dueDate.Some? && t.dueDate.value < now && t.status != Completed
  }

  /** A task with only its required fields takes every default; each timestamp is its own clock reading. */
  lemma Defaults(title: string, userId: string, now: Readings)
    ensures Construct(map["title" := Str(title), "user_id" := Str(userId)], now)
         == Ok(Task(None, title, None, Pending, Medium, None, now.created, now.updated, None, [], userId))
  {
  }

  /** Encoding the timestamp fields, then decoding them, gives back the dict. */
  lemma {:induction false} DecodeEncode(data: Record)
    requires forall k :: k in data && k in TimeFields ==> !data[k].Str?
    ensures DecodeTimes(EncodeTimes(data)) == Ok(data)
  {
    var enc := EncodeTimes(data);
    forall k | k in enc && k in TimeFields
      ensures Decodable(enc[k]) && Decoded(enc[k]) == data[k]
    {
      if data[k].Time? {
        IsoRoundTrip(data[k].t);
      }
    }
    assert DecodeTimes(enc).Ok?;
    var dec := DecodeTimes(enc).value;
    assert dec.Keys == data.Keys;
    assert forall k :: k in dec ==> dec[k] == data[k];
    assert dec == data;
  }

  lemma DumpValidIdentity(t: Task)
    ensures FieldOptStr(DropNullId(Dump(t)), "id") == Ok(t.id)
    ensures FieldStr(DropNullId(Dump(t)), "title") == Ok(t.title)
    ensures FieldStr(DropNullId(Dump(t)), "user_id") == Ok(t.userId)
  {
    DumpIdentity(t);
  }

  lemma DumpValidDescription(t: Task)
    ensures FieldOptStr(DropNullId(Dump(t)), "description") == Ok(t.description)
  {
    DumpIdentity(t);
    DumpDetails(t);
    assert Get(DropNullId(Dump(t)), "description") == OptStr(t.description);
  }

  lemma DumpValidTags(t: Task)
    ensures FieldTags(DropNullId(Dump(t)), "tags") == Ok(t.tags)
  {
    DumpIdentity(t);
    DumpDetails(t);
    StrListOfStrValues(t.tags);
    var d := DropNullId(Dump(t));
    assert "tags" in d && d["tags"] == Arr(StrValues(t.tags));
  }

  lemma DumpValidEnums(t: Task)
    ensures FieldStatus(DropNullId(Dump(t))) == Ok(t.status)
    ensures FieldPriority(DropNullId(Dump(t))) == Ok(t.priority)
  {
    DumpIdentity(t);
    DumpEnums(t);
    StatusCodes(StatusCode(t.status), t.status, t.status);
    PriorityCodes(PriorityCode(t.priority), t.priority, t.priority);
  }

  lemma DumpValidStamps(t: Task, now: Readings)
    ensures FieldTime(DropNullId(Dump(t)), "created_at", now.created) == Ok(t.createdAt)
    ensures FieldTime(DropNullId(Dump(t)), "updated_at", now.updated) == Ok(t.updatedAt)
  {
    DumpIdentity(t);
    DumpStamps(t);
  }

  lemma DumpValidDates(t: Task)
    ensures FieldOptTime(DropNullId(Dump(t)), "due_date") == Ok(t.dueDate)
    ensures FieldOptTime(DropNullId(Dump(t)), "completed_at") == Ok(t.completedAt)
  {
    DumpIdentity(t);
    DumpDates(t);
  }

  /** No timestamp field of a dump holds a string. */
  lemma DumpTimesNotStrings(t: Task)
    ensures forall k :: k in DropNullId(Dump(t)) && k in TimeFields ==> !DropNullId(Dump(t))[k].Str?
  {
    DumpIdentity(t);
    DumpStamps(t);
    DumpDates(t);
  }

  /** The stored form before its timestamps are encoded validates back to the task. */
  lemma {:induction false} ConstructDump(t: Task, now: Readings)
    ensures Construct(DropNullId(Dump(t)), now) == Ok(t)
  {
    DumpValidIdentity(t);
    DumpValidDescription(t);
    DumpValidTags(t);
    DumpValidEnums(t);
    DumpValidStamps(t, now);
    DumpValidDates(t);
  }

  /** Round trip: reading back what `to_cosmos_dict` stores gives the same task. */
  lemma {:induction false} CosmosRoundTrip(t: Task, now: Readings)
    ensures FromCosmosDict(ToCosmosDict(t), now) == Ok(t)
  {
    var d := DropNullId(Dump(t));
    DumpTimesNotStrings(t);
    DecodeEncode(d);
    ConstructDump(t, now);
  }

  /** `CreateTaskRequest`: title and user_id required, priority defaults to medium. */
  datatype CreateTaskRequest = CreateTaskRequest(
    title: string,
    description: Option<string>,
    priority: TaskPriority,
    dueDate: Option<Instant>,
    tags: seq<string>,
    userId: string)

  /** `CreateTaskRequest(**body)`; a body that is not a JSON object raises. */
  function ParseCreateRequest(body: Value): (r: Result<CreateTaskRequest>)
    ensures !body.Obj? ==> r.Err?
    ensures body.Obj? && ("title" !in body.fields || "user_id" !in body.fields) ==> r.Err?
    ensures body.Obj? && "priority" !in body.fields && r.Ok? ==> r.value.priority == Medium
    ensures r.Ok? ==> body.fields["title"] == Str(r.value.title) && body.fields["user_id"] == Str(r.value.userId)
  {
    if !body.Obj? then Err("argument after ** must be a mapping")
    else
      var d := body.fields;
      var title :- FieldStr(d, "title");
      var description :- FieldOptStr(d, "description");
      var priority :- FieldPriority(d);
      var dueDate :- FieldOptTime(d, "due_date");
      var tags :- FieldTags(d, "tags");
      var userId :- FieldStr(d, "user_id");
      Ok(CreateTaskRequest(title, description, priority, dueDate, tags, userId))
  }

  /** `create_request.model_dump()`. */
  function CreateRequestDump(q: CreateTaskRequest): Record
  {
    map[
      "title" := Str(q.title),
      "description" := OptStr(q.description),
      "priority" := Str(PriorityCode(q.priority)),
      "due_date" := OptTime(q.dueDate),
      "tags" := Arr(StrValues(q.tags)),
      "user_id" := Str(q.userId)
    ]
  }

  // As with `Dump`, each lemma below looks up only a couple of the dump's fields.

  lemma CreateDumpNames(q: CreateTaskRequest)
    ensures FieldStr(CreateRequestDump(q), "title") == Ok(q.title)
    ensures FieldStr(CreateRequestDump(q), "user_id") == Ok(q.userId)
  {
  }

  lemma CreateDumpDescription(q: CreateTaskRequest)
    ensures FieldOptStr(CreateRequestDump(q), "description") == Ok(q.description)
    ensures FieldOptStr(CreateRequestDump(q), "id") == Ok(None)
  {
    var d := CreateRequestDump(q);
    assert Get(d, "description") == OptStr(q.description);
    assert "id" !in d;
  }

  lemma CreateDumpPriority(q: CreateTaskRequest)
    ensures FieldPriority(CreateRequestDump(q)) == Ok(q.priority)
    ensures FieldOptTime(CreateRequestDump(q), "due_date") == Ok(q.dueDate)
  {
    var d := CreateRequestDump(q);
    assert Get(d, "priority") == Str(PriorityCode(q.priority));
    assert Get(d, "due_date") == OptTime(q.dueDate);
    PriorityCodes(PriorityCode(q.priority), q.priority, q.priority);
  }

  lemma CreateDumpTags(q: CreateTaskRequest)
    ensures FieldTags(CreateRequestDump(q), "tags") == Ok(q.tags)
  {
    StrListOfStrValues(q.tags);
  }

  /** The fields a create request does not carry take their defaults. */
  lemma CreateDumpStatus(q: CreateTaskRequest)
    ensures FieldStatus(CreateRequestDump(q)) == Ok(Pending)
    ensures FieldOptTime(CreateRequestDump(q), "completed_at") == Ok(None)
  {
  }

  lemma CreateDumpStamps(q: CreateTaskRequest, now: Readings)
    ensures FieldTime(CreateRequestDump(q), "created_at", now.created) == Ok(now.created)
    ensures FieldTime(CreateRequestDump(q), "updated_at", now.updated) == Ok(now.updated)
  {
  }

  /** `Task(**create_request.model_dump())` always validates: a pending task carrying the request's fields. */
  lemma {:induction false} TaskFromCreateRequest(q: CreateTaskRequest, now: Readings)
    ensures Construct(CreateRequestDump(q), now)
         == Ok(Task(None, q.title, q.description, Pending, q.priority, q.dueDate, now.created, now.updated, None, q.tags, q.userId))
  {
    CreateDumpNames(q);
    CreateDumpDescription(q);
    CreateDumpPriority(q);
    CreateDumpTags(q);
    CreateDumpStatus(q);
    CreateDumpStamps(q, now);
  }

  /** An optional request field as pydantic tracks it: not sent, or sent (possibly as `null`). */
  datatype Patch<+T> = Unset | Set(value: Option<T>)

  /** `UpdateTaskRequest`: only optional fields; no user_id, id or completed_at. */
  datatype UpdateTaskRequest = UpdateTaskRequest(
    title: Patch<string>,
    description: Patch<string>,
    status: Patch<TaskStatus>,
    priority: Patch<TaskPriority>,
    dueDate: Patch<Instant>,
    tags: Patch<seq<string>>)

  const UpdateFields: set<string> := {"title", "description", "status", "priority", "due_date", "tags"}

  /** What a body says about field `k`: unset when it is absent, sent as `null` when it is `null`. */
  predicate SentAs<T>(d: Record, k: string, p: Patch<T>)
  {
    (p.Unset? <==> k !in d) && (p.Set? && p.value.None? <==> k in d && d[k].Null?)
  }

  /** Field `k` as sent in `d`, holding the value its validator gives when it is neither absent nor `null`. */
  predicate PatchFor<T(==)>(d: Record, k: string, p: Patch<T>, v: Result<T>)
  {
    SentAs(d, k, p) && (p.Set? && p.value.Some? ==> v == Ok(p.value.value))
  }

  /** A field an all-optional request model accepts: absent, `null`, or valid for its validator `v`. */
  predicate Acceptable<T>(d: Record, k: string, v: Result<T>)
  {
    k !in d || d[k].Null? || v.Ok?
  }

  /** Field `k` of an all-optional request model whose validator gives `v` on a present value. */
  function PatchOf<T>(d: Record, k: string, v: Result<T>): (r: Result<Patch<T>>)
    ensures r.Ok? <==> Acceptable(d, k, v)
    ensures r.Ok? ==> SentAs(d, k, r.value)
    ensures r.Ok? && r.value.Set? && r.value.value.Some? ==> k in d && !d[k].Null? && v == Ok(r.value.value.value)
  {
    if k !in d then Ok(Unset)
    else if d[k].Null? then Ok(Set(None))
    else match v
      case Ok(x) => Ok(Set(Some(x)))
      case Err(e) => Err(e)
  }

  /**
   * `UpdateTaskRequest(**body)`: accepted exactly when every field is absent, `null` or
   * valid; each field is unset exactly when absent, `Set(None)` exactly when `null`, and
   * otherwise holds what its validator makes of the value the body sent.
   */
  function ParseUpdateRequest(body: Value): (r: Result<UpdateTaskRequest>)
    ensures r.Ok? <==> (
      && body.Obj?
      && Acceptable(body.fields, "title", FieldStr(body.fields, "title"))
      && Acceptable(body.fields, "description", FieldStr(body.fields, "description"))
      && Acceptable(body.fields, "status", FieldStatus(body.fields))
      && Acceptable(body.fields, "priority", FieldPriority(body.fields))
      && Acceptable(body.fields, "due_date", FieldOptTime(body.fields, "due_date"))
      && Acceptable(body.fields, "tags", FieldTags(body.fields, "tags")))
    ensures r.Ok? ==> var d := body.fields; var q := r.value;
      && PatchFor(d, "title", q.title, FieldStr(d, "title"))
      && PatchFor(d, "description", q.description, FieldStr(d, "description"))
      && PatchFor(d, "status", q.status, FieldStatus(d))
      && PatchFor(d, "priority", q.priority, FieldPriority(d))
      && SentAs(d, "due_date", q.dueDate)
      && (q.dueDate.Set? && q.dueDate.value.Some? ==> FieldOptTime(d, "due_date") == Ok(q.dueDate.value))
      && PatchFor(d, "tags", q.tags, FieldTags(d, "tags"))
  {
    if !body.Obj? then Err("argument after ** must be a mapping")
    else
      var d := body.fields;
      Combine(PatchOf(d, "title", FieldStr(d, "title")), PatchOf(d, "description", FieldStr(d, "description")),
              PatchOf(d, "status", FieldStatus(d)), PatchOf(d, "priority", FieldPriority(d)),
              PatchOf(d, "due_date", FieldOptTime(d, "due_date")), PatchOf(d, "tags", FieldTags(d, "tags")))
  }

  /** The validated request when every field validated, else the first field error. */
  function Combine(title: Result<Patch<string>>, description: Result<Patch<string>>, status: Result<Patch<TaskStatus>>,
                   priority: Result<Patch<TaskPriority>>, dueDate: Result<Patch<Option<Instant>>>,
                   tags: Result<Patch<seq<string>>>): (r: Result<UpdateTaskRequest>)
    ensures r.Ok? <==> title.Ok? && description.Ok? && status.Ok? && priority.Ok? && dueDate.Ok? && tags.Ok?
    ensures r.Ok? ==> r.value == UpdateTaskRequest(title.value, description.value, status.value, priority.value,
                                                   OptionPatch(dueDate.value), tags.value)
  {
    if title.Ok? && description.Ok? && status.Ok? && priority.Ok? && dueDate.Ok? && tags.Ok? then
      Ok(UpdateTaskRequest(title.value, description.value, status.value, priority.value, OptionPatch(dueDate.value), tags.value))
    else
      Err(if title.Err? then title.error else if description.Err? then description.error
          else if status.Err? then status.error else if priority.Err? then priority.error
          else if dueDate.Err? then dueDate.error else tags.error)
  }

  /** A validated `Optional[datetime]` value that is not `null` is a datetime. */
  function OptionPatch(p: Patch<Option<Instant>>): Patch<Instant>
  {
    match p
    case Unset => Unset
    case Set(None) => Set(None)
    case Set(Some(o)) => Set(o)
  }

  // The JSON values of the optional update fields: `null`, or the field's code or list.

  function OptStatus(o: Option<TaskStatus>): Value
  {
    match o
    case None => Null
    case Some(x) => Str(StatusCode(x))
  }

  function OptPriority(o: Option<TaskPriority>): Value
  {
    match o
    case None => Null
    case Some(x) => Str(PriorityCode(x))
  }

  function OptTags(o: Option<seq<string>>): Value
  {
    match o
    case None => Null
    case Some(xs) => Arr(StrValues(xs))
  }

  /**
   * `model_dump(exclude_unset=True)`: exactly the fields the request set, each as its JSON
   * value (`null` for one sent as `null`), except that a due date stays a datetime.
   */
  function DumpSet(q: UpdateTaskRequest): (r: Record)
    ensures r.Keys <= UpdateFields
    ensures ("title" in r <==> q.title.Set?) && ("description" in r <==> q.description.Set?)
    ensures ("status" in r <==> q.status.Set?) && ("priority" in r <==> q.priority.Set?)
    ensures ("due_date" in r <==> q.dueDate.Set?) && ("tags" in r <==> q.tags.Set?)
  {
    var r1 := if q.title.Set? then map["title" := OptStr(q.title.value)] else map[];
    var r2 := if q.description.Set? then r1["description" := OptStr(q.description.value)] else r1;
    var r3 := if q.status.Set? then r2["status" := OptStatus(q.status.value)] else r2;
    var r4 := if q.priority.Set? then r3["priority" := OptPriority(q.priority.value)] else r3;
    var r5 := if q.dueDate.Set? then r4["due_date" := OptTime(q.dueDate.value)] else r4;
    if q.tags.Set? then r5["tags" := OptTags(q.tags.value)] else r5
  }

  /** Each field the request set is dumped as its JSON value, `null` for one sent as `null`. */
  lemma DumpSetValues(q: UpdateTaskRequest)
    ensures var r := DumpSet(q);
      && (q.title.Set? ==> r["title"] == OptStr(q.title.value))
      && (q.description.Set? ==> r["description"] == OptStr(q.description.value))
      && (q.status.Set? ==> r["status"] == OptStatus(q.status.value))
      && (q.priority.Set? ==> r["priority"] == OptPriority(q.priority.value))
      && (q.dueDate.Set? ==> r["due_date"] == OptTime(q.dueDate.value))
      && (q.tags.Set? ==> r["tags"] == OptTags(q.tags.value))
  {
  }

  /** A field whose presence, `null` and validated value agree with `p` parses back as `p`. */
  lemma PatchOfSent<T>(d: Record, k: string, p: Patch<T>, v: Result<T>)
    requires k in d <==> p.Set?
    requires p.Set? ==> (d[k].Null? <==> p.value.None?)
    requires p.Set? && p.value.Some? ==> v == Ok(p.value.value)
    ensures PatchOf(d, k, v) == Ok(p)
  {
  }

  /** The dumped title and description validate back to the request's. */
  lemma DumpSetTexts(q: UpdateTaskRequest)
    ensures var d := DumpSet(q);
      && PatchOf(d, "title", FieldStr(d, "title")) == Ok(q.title)
      && PatchOf(d, "description", FieldStr(d, "description")) == Ok(q.description)
  {
    var d := DumpSet(q);
    DumpSetValues(q);
    PatchOfSent(d, "title", q.title, FieldStr(d, "title"));
    PatchOfSent(d, "description", q.description, FieldStr(d, "description"));
  }

  /** The dumped status and priority codes validate back to the request's. */
  lemma DumpSetCodes(q: UpdateTaskRequest)
    ensures var d := DumpSet(q);
      && PatchOf(d, "status", FieldStatus(d)) == Ok(q.status)
      && PatchOf(d, "priority", FieldPriority(d)) == Ok(q.priority)
  {
    var d := DumpSet(q);
    DumpSetValues(q);
    if q.status.Set? && q.status.value.Some? {
      var x := q.status.value.value;
      StatusCodes(StatusCode(x), x, x);
      assert FieldStatus(d).Ok?;
      StatusCodes(StatusCode(x), FieldStatus(d).value, x);
    }
    if q.priority.Set? && q.priority.value.Some? {
      var x := q.priority.value.value;
      PriorityCodes(PriorityCode(x), x, x);
      assert FieldPriority(d).Ok?;
      PriorityCodes(PriorityCode(x), FieldPriority(d).value, x);
    }
    PatchOfSent(d, "status", q.status, FieldStatus(d));
    PatchOfSent(d, "priority", q.priority, FieldPriority(d));
  }

  /** The dumped due date and tags validate back to the request's. */
  lemma DumpSetRest(q: UpdateTaskRequest)
    ensures var d := DumpSet(q);
      && OptionPatch(PatchOf(d, "due_date", FieldOptTime(d, "due_date")).value) == q.dueDate
      && PatchOf(d, "due_date", FieldOptTime(d, "due_date")).Ok?
      && PatchOf(d, "tags", FieldTags(d, "tags")) == Ok(q.tags)
  {
    var d := DumpSet(q);
    DumpSetValues(q);
    var wide: Patch<Option<Instant>> := match q.dueDate
      case Unset => Unset
      case Set(None) => Set(None)
      case Set(Some(t)) => Set(Some(Some(t)));
    PatchOfSent(d, "due_date", wide, FieldOptTime(d, "due_date"));
    if q.tags.Set? && q.tags.value.Some? {
      StrListOfStrValues(q.tags.value.value);
    }
    PatchOfSent(d, "tags", q.tags, FieldTags(d, "tags"));
  }

  /** Validating the fields a request sent gives back that request. */
  lemma UpdateRequestRoundTrip(q: UpdateTaskRequest)
    ensures ParseUpdateRequest(Obj(DumpSet(q))) == Ok(q)
  {
    DumpSetTexts(q);
    DumpSetCodes(q);
    DumpSetRest(q);
  }

  /** `model_dump()`: every field, `None` for those not sent. */
  function DumpAll(q: UpdateTaskRequest): (r: Record)
    ensures r.Keys == UpdateFields
  {
    var set_ := DumpSet(q);
    map k | k in UpdateFields :: Get(set_, k)
  }

  /** An update dump never names the owner, the id or the completion timestamp. */
  lemma UpdateDumpFields(q: UpdateTaskRequest)
    ensures "user_id" !in DumpSet(q) && "id" !in DumpSet(q) && "completed_at" !in DumpSet(q)
    ensures "user_id" !in DumpAll(q) && "id" !in DumpAll(q) && "completed_at" !in DumpAll(q)
  {
  }

  /** Without a due date, every value an update request dumps is a string, a string list or `null`. */
  lemma DumpSetPlain(q: UpdateTaskRequest)
    requires !(q.dueDate.Set? && q.dueDate.value.Some?)
    ensures SerialisableRecord(DumpSet(q))
  {
    DumpSetValues(q);
    var r := DumpSet(q);
    if q.tags.Set? && q.tags.value.Some? {
      StrValuesSerialisable(q.tags.value.value);
    }
    forall k | k in r
      ensures Serialisable(r[k])
    {
      assert k in UpdateFields;
      if k == "title" {
        assert r[k] == OptStr(q.title.value);
      } else if k == "description" {
        assert r[k] == OptStr(q.description.value);
      } else if k == "status" {
        assert r[k] == OptStatus(q.status.value);
      } else if k == "priority" {
        assert r[k] == OptPriority(q.priority.value);
      } else if k == "due_date" {
        assert r[k] == Null;
      } else {
        assert r[k] == OptTags(q.tags.value);
      }
    }
  }

  /**
   * Of the fields an update request sets, only a due date dumps to a native `datetime`:
   * the dump is plain JSON exactly when the request sets no due date.
   */
  lemma DumpSetSerialisable(q: UpdateTaskRequest)
    ensures SerialisableRecord(DumpSet(q)) <==> !(q.dueDate.Set? && q.dueDate.value.Some?)
  {
    if q.dueDate.Set? && q.dueDate.value.Some? {
      DumpSetValues(q);
      assert !Serialisable(DumpSet(q)["due_date"]);
    } else {
      DumpSetPlain(q);
    }
  }

  /** Dropping the `null` values of either dump leaves the same updates. */
  lemma DumpsAgreeWithoutNulls(q: UpdateTaskRequest)
    ensures DropNulls(DumpAll(q)) == DropNulls(DumpSet(q))
  {
    var a := DropNulls(DumpAll(q));
    var b := DropNulls(DumpSet(q));
    assert forall k :: k in a <==> k in b;
  }
}
