/**
 * User profiles, onboarding status and chat sessions. The three repositories share
 * one container partitioned by `user_id`; the kind of each document is told apart by
 * its `document_type`. The `UserProfile`, `OnboardingStatus` and `ChatSession` models
 * are not part of this model: their documents are records, and their
 * `to_cosmos_dict`/`from_cosmos_dict` conversions are taken to leave a record as it is.
 */
module Profiles {
  import opened Wrappers
  import opened IsoTime
  import opened Values
  import opened Ordering
  import opened Store
  import opened GenericRepo

  const ProfileType := "user_profile"
  const OnboardingType := "onboarding_status"
  const ChatType := "chat_session"

  /** The `OnboardingStep` values the code names: the first step and the last one. */
  const Welcome := "welcome"
  const Completed := "completed"

  /** `title[:100]` in `create_chat_session`. */
  const TitleLimit := 100
  /** `limit=100` in `delete_all_chat_sessions`. */
  const DeleteBatch := 100

  // ---------------------------------------------------------------------------
  // Reading documents of one kind
  // ---------------------------------------------------------------------------

  /** The `id` a document carries, as the code reads it (`profile.id`, `session.id`). */
  function IdOf(r: Record): string
  {
    match Get(r, "id")
    case Str(s) => s
    case _ => []
  }

  function First(items: seq<Record>): Option<Record>
  {
    if items == [] then None else Some(items[0])
  }

  /**
   * The document a `get_user_profile`/`get_onboarding_status` query returns: the first
   * document of the user with the given `document_type`, in store order.
   */
  function FirstOf(docs: seq<Record>, userId: string, docType: string): Option<Record>
  {
    First(Filter(docs, UserAndType(userId, docType)))
  }

  lemma FirstOfFacts(docs: seq<Record>, userId: string, docType: string)
    ensures var r := FirstOf(docs, userId, docType);
      && (r.Some? ==> r.value in docs && Get(r.value, "user_id") == Str(userId) && Get(r.value, "document_type") == Str(docType))
      && (r.None? <==> forall x :: x in docs ==> !(Get(x, "user_id") == Str(userId) && Get(x, "document_type") == Str(docType)))
  {
    var f := Filter(docs, UserAndType(userId, docType));
    if f != [] {
      assert f[0] in f;
    }
  }

  /** A stored document of the user sits under the key (its id, the user). */
  lemma OwnedKey(docs: seq<Record>, r: Record, userId: string)
    requires WellFormed(docs, "user_id") && r in docs && Get(r, "user_id") == Str(userId)
    ensures KeyOf(r, "user_id") == Some(DocKey(IdOf(r), userId))
    ensures Lookup(docs, "user_id", DocKey(IdOf(r), userId)) == Some(r)
  {
    var i :| 0 <= i < |docs| && docs[i] == r;
    assert KeyOf(docs[i], "user_id").Some?;
    LookupMember(docs, "user_id", r);
  }

  /** The key of the first document of a kind, when there is one (what the deletions remove). */
  function FirstKey(docs: seq<Record>, userId: string, docType: string): set<DocKey>
  {
    match FirstOf(docs, userId, docType)
    case Some(x) => {DocKey(IdOf(x), userId)}
    case None => {}
  }

  /** Removing a document of another kind leaves the selection of a kind unchanged. */
  lemma RemovalKeepsKind(d0: seq<Record>, d1: seq<Record>, i: nat, userId: string, docType: string)
    requires i < |d0| && d1 == d0[..i] + d0[i + 1..] && Get(d0[i], "document_type") != Str(docType)
    ensures Filter(d1, UserAndType(userId, docType)) == Filter(d0, UserAndType(userId, docType))
  {
    FilterSkips(d0, i, UserAndType(userId, docType));
  }

  // ---------------------------------------------------------------------------
  // Profiles
  // ---------------------------------------------------------------------------

  /**
   * The fields `create_user_profile` copies from the request. A field the request
   * object has is a key of `request`: `primary_life_areas` falls back to `[]` when
   * falsy; `first_run` and `onboarding_completed` fall back to `True` and `False`
   * when the request has no such attribute.
   */
  function ProfileFields(request: Record): Record
  {
    (map k | k in CopiedFields :: Get(request, k))
      ["primary_life_areas" := (if Truthy(Get(request, "primary_life_areas")) then request["primary_life_areas"] else Arr([]))]
      ["first_run" := (if "first_run" in request then request["first_run"] else Bool(true))]
      ["onboarding_completed" := (if "onboarding_completed" in request then request["onboarding_completed"] else Bool(false))]
  }

  /** The request attributes the profile takes over unchanged (`None` when absent). */
  const CopiedFields: set<string> := {
    "display_name", "email", "first_name", "last_name", "location", "timezone", "bio",
    "life_area_priorities", "preferred_greeting", "communication_style", "oauth_provider",
    "oauth_id", "interview_data"
  }

  /** The profile document `create_user_profile` stores; `freshId` is the model's generated id. */
  function ProfileRecord(userId: string, request: Record, freshId: string): Record
  {
    ProfileFields(request)["document_type" := Str(ProfileType)]["user_id" := Str(userId)]["id" := Str(freshId)]
  }

  lemma ProfileRecordFields(userId: string, request: Record, freshId: string)
    ensures var r := ProfileRecord(userId, request, freshId);
      && KeyOf(r, "user_id") == Some(DocKey(freshId, userId)) && IdOf(r) == freshId
      && Get(r, "document_type") == Str(ProfileType)
      && r["first_run"] == (if "first_run" in request then request["first_run"] else Bool(true))
      && r["onboarding_completed"] == (if "onboarding_completed" in request then request["onboarding_completed"] else Bool(false))
      && (Truthy(Get(request, "primary_life_areas")) ==> r["primary_life_areas"] == request["primary_life_areas"])
      && (!Truthy(Get(request, "primary_life_areas")) ==> r["primary_life_areas"] == Arr([]))
  {
  }

  /** The stored profile with every update field that the profile already has copied over; other update fields are ignored. */
  function KnownFields(existing: Record, updates: Record): (r: Record)
    ensures r.Keys == existing.Keys
    ensures forall k :: k in existing && k in updates ==> r[k] == updates[k]
    ensures forall k :: k in existing && k !in updates ==> r[k] == existing[k]
  {
    existing + (map k | k in updates && k in existing :: updates[k])
  }

  /** Applying the same update twice changes nothing more. */
  lemma KnownFieldsIdempotent(existing: Record, updates: Record)
    ensures KnownFields(KnownFields(existing, updates), updates) == KnownFields(existing, updates)
  {
  }

  /**
   * `update_user_profile`'s loop: `setattr` for each field of the update that the
   * profile has (`hasattr`).
   */
  method SetKnownFields(existing: Record, updates: Record) returns (r: Record)
    ensures r == KnownFields(existing, updates)
  {
    r := existing;
    var pending := updates.Keys;
    while pending != {}
      invariant pending <= updates.Keys
      invariant r.Keys == existing.Keys
      invariant forall k :: k in r ==> r[k] == if k in updates && k !in pending then updates[k] else existing[k]
      decreases |pending|
    {
      var k :| k in pending;
      if k in r {
        r := r[k := updates[k]];
      }
      pending := pending - {k};
    }
    var expected := KnownFields(existing, updates);
    assert r.Keys == expected.Keys;
    assert r == expected;
  }

  /** `updated_at` and `last_active` from the two clock reads. */
  function Touched(r: Record, now1: Instant, now2: Instant): Record
  {
    r["updated_at" := Str(IsoFormat(now1))]["last_active" := Str(IsoFormat(now2))]
  }

  /**
   * An updated profile can be stored exactly when every update value it takes in can;
   * the update fields the profile lacks, and the two stamps, are not stored from the update.
   */
  lemma TouchedSerialisable(existing: Record, updates: Record, now1: Instant, now2: Instant)
    requires SerialisableRecord(existing)
    ensures SerialisableRecord(Touched(KnownFields(existing, updates), now1, now2)) <==>
      forall k :: k in existing && k in updates && k != "updated_at" && k != "last_active" ==> Serialisable(updates[k])
  {
    var known := KnownFields(existing, updates);
    var t := Touched(known, now1, now2);
    if forall k :: k in existing && k in updates && k != "updated_at" && k != "last_active" ==> Serialisable(updates[k]) {
      forall k | k in t ensures Serialisable(t[k]) {
        if k != "updated_at" && k != "last_active" {
          assert t[k] == known[k];
        }
      }
    } else {
      var k :| k in existing && k in updates && k != "updated_at" && k != "last_active" && !Serialisable(updates[k]);
      assert t[k] == updates[k];
    }
  }

  /** A profile built from a request without datetimes can be stored. */
  lemma ProfileRecordSerialisable(userId: string, request: Record, freshId: string)
    requires SerialisableRecord(request)
    ensures SerialisableRecord(ProfileRecord(userId, request, freshId))
  {
    var copied := map k | k in CopiedFields :: Get(request, k);
    forall k | k in copied ensures Serialisable(copied[k]) {
      if k in request {
        assert Serialisable(request[k]);
      }
    }
    var areas := if Truthy(Get(request, "primary_life_areas")) then request["primary_life_areas"] else Arr([]);
    var firstRun := if "first_run" in request then request["first_run"] else Bool(true);
    var completed := if "onboarding_completed" in request then request["onboarding_completed"] else Bool(false);
    assert Serialisable(Get(request, "primary_life_areas"));
    StoreSerialisable(copied, "primary_life_areas", areas);
    StoreSerialisable(copied["primary_life_areas" := areas], "first_run", firstRun);
    var f := copied["primary_life_areas" := areas]["first_run" := firstRun];
    StoreSerialisable(f, "onboarding_completed", completed);
    assert ProfileFields(request) == f["onboarding_completed" := completed];
    StoreSerialisable(ProfileFields(request), "document_type", Str(ProfileType));
    StoreSerialisable(ProfileFields(request)["document_type" := Str(ProfileType)], "user_id", Str(userId));
    StoreSerialisable(ProfileFields(request)["document_type" := Str(ProfileType)]["user_id" := Str(userId)], "id", Str(freshId));
  }

  /** An update that names neither `id` nor `user_id` keeps the profile under its key (so its replace finds it). */
  lemma ProfileUpdateKeepsKey(existing: Record, updates: Record, now1: Instant, now2: Instant)
    requires "id" !in updates && "user_id" !in updates
    ensures var body := Touched(KnownFields(existing, updates), now1, now2);
      && KeyOf(body, "user_id") == KeyOf(existing, "user_id")
      && ("document_type" !in updates ==> Get(body, "document_type") == Get(existing, "document_type"))
      && body["updated_at"] == Str(IsoFormat(now1)) && body["last_active"] == Str(IsoFormat(now2))
  {
  }

  // ---------------------------------------------------------------------------
  // Onboarding status
  // ---------------------------------------------------------------------------

  /** The initial onboarding document (`create_user_profile`, `create_onboarding_status`). */
  function InitialOnboarding(userId: string, freshId: string): Record
  {
    map[
      "interview_responses" := Obj(map[]),
      "welcome_shown" := Bool(false),
      "is_completed" := Bool(false),
      "completed_steps" := Arr([]),
      "current_step" := Str(Welcome),
      "document_type" := Str(OnboardingType),
      "user_id" := Str(userId),
      "id" := Str(freshId)
    ]
  }

  lemma InitialOnboardingKey(userId: string, freshId: string)
    ensures var r := InitialOnboarding(userId, freshId);
      && KeyOf(r, "user_id") == Some(DocKey(freshId, userId)) && IdOf(r) == freshId && Get(r, "document_type") == Str(OnboardingType)
      && SerialisableRecord(r)
  {
  }

  function StepsOf(r: Record): seq<Value>
  {
    match Get(r, "completed_steps")
    case Arr(e) => e
    case _ => []
  }

  function ResponsesOf(r: Record): map<string, Value>
  {
    match Get(r, "interview_responses")
    case Obj(f) => f
    case _ => map[]
  }

  /**
   * `update_onboarding_step` on a status: the step becomes current and is appended to the
   * completed steps unless already there; non-empty interview data has its `welcome_shown`
   * entry lifted onto the status and the rest merged into the responses; the `completed`
   * step completes the onboarding (`now1`); `updated_at` is `now2`.
   */
  function Advanced(r: Record, step: string, data: Option<Record>, now1: Instant, now2: Instant): Record
  {
    var steps := StepsOf(r);
    var r1 := r["current_step" := Str(step)]["completed_steps" := Arr(if Str(step) in steps then steps else steps + [Str(step)])];
    var r2 :=
      if data.Some? && data.value != map[] then
        var flagged := if "welcome_shown" in data.value then r1["welcome_shown" := data.value["welcome_shown"]] else r1;
        flagged["interview_responses" := Obj(ResponsesOf(r) + (data.value - {"welcome_shown"}))]
      else r1;
    var r3 := if step == Completed then r2["is_completed" := Bool(true)]["completed_at" := Str(IsoFormat(now1))] else r2;
    r3["updated_at" := Str(IsoFormat(now2))]
  }

  /** Interview data the store can serialise: none, or a record without a datetime in it. */
  predicate SerialisableData(data: Option<Record>)
  {
    data.Some? ==> SerialisableRecord(data.value)
  }

  /**
   * An advanced status can be stored exactly when the interview data can: the data's
   * values are copied into it, and its own stamps are strings.
   */
  lemma AdvancedSerialisable(r: Record, step: string, data: Option<Record>, now1: Instant, now2: Instant)
    requires SerialisableRecord(r)
    ensures SerialisableRecord(Advanced(r, step, data, now1, now2)) <==> SerialisableData(data)
  {
    if SerialisableData(data) {
      AdvancedKeepsSerialisable(r, step, data, now1, now2);
    } else {
      var a := Advanced(r, step, data, now1, now2);
      var k :| k in data.value && !Serialisable(data.value[k]);
      if k == "welcome_shown" {
        assert a["welcome_shown"] == data.value[k];
      } else {
        var responses := ResponsesOf(r) + (data.value - {"welcome_shown"});
        assert a["interview_responses"] == Obj(responses);
        assert responses[k] == data.value[k];
      }
    }
  }

  /** The forward half of `AdvancedSerialisable`, one written field at a time. */
  lemma AdvancedKeepsSerialisable(r: Record, step: string, data: Option<Record>, now1: Instant, now2: Instant)
    requires SerialisableRecord(r) && SerialisableData(data)
    ensures SerialisableRecord(Advanced(r, step, data, now1, now2))
  {
    var steps := StepsOf(r);
    assert Serialisable(Get(r, "completed_steps"));
    var done := Arr(if Str(step) in steps then steps else steps + [Str(step)]);
    StoreSerialisable(r, "current_step", Str(step));
    StoreSerialisable(r["current_step" := Str(step)], "completed_steps", done);
    var r1 := r["current_step" := Str(step)]["completed_steps" := done];
    var r2 :=
      if data.Some? && data.value != map[] then
        var flagged := if "welcome_shown" in data.value then r1["welcome_shown" := data.value["welcome_shown"]] else r1;
        flagged["interview_responses" := Obj(ResponsesOf(r) + (data.value - {"welcome_shown"}))]
      else r1;
    if data.Some? && data.value != map[] {
      var flagged := if "welcome_shown" in data.value then r1["welcome_shown" := data.value["welcome_shown"]] else r1;
      if "welcome_shown" in data.value {
        StoreSerialisable(r1, "welcome_shown", data.value["welcome_shown"]);
      }
      assert Serialisable(Get(r, "interview_responses"));
      var responses := ResponsesOf(r) + (data.value - {"welcome_shown"});
      assert forall k :: k in responses ==> Serialisable(responses[k]);
      StoreSerialisable(flagged, "interview_responses", Obj(responses));
    }
    var r3 := if step == Completed then r2["is_completed" := Bool(true)]["completed_at" := Str(IsoFormat(now1))] else r2;
    if step == Completed {
      StoreSerialisable(r2, "is_completed", Bool(true));
      StoreSerialisable(r2["is_completed" := Bool(true)], "completed_at", Str(IsoFormat(now1)));
    }
    StoreSerialisable(r3, "updated_at", Str(IsoFormat(now2)));
  }

  predicate NoRepeats(s: seq<Value>)
  {
    forall i, j :: 0 <= i < j < |s| ==> s[i] != s[j]
  }

  /** The step becomes current and is recorded once; earlier steps keep their order; the key and kind stay. */
  lemma AdvancedSteps(r: Record, step: string, data: Option<Record>, now1: Instant, now2: Instant)
    ensures var a := Advanced(r, step, data, now1, now2);
      && Get(a, "current_step") == Str(step)
      && Str(step) in StepsOf(a)
      && StepsOf(r) <= StepsOf(a)
      && (Str(step) in StepsOf(r) ==> StepsOf(a) == StepsOf(r))
      && (Str(step) !in StepsOf(r) ==> StepsOf(a) == StepsOf(r) + [Str(step)])
      && (NoRepeats(StepsOf(r)) ==> NoRepeats(StepsOf(a)))
  {
    var a := Advanced(r, step, data, now1, now2);
    var steps := StepsOf(r);
    assert Get(a, "completed_steps") == Arr(if Str(step) in steps then steps else steps + [Str(step)]);
  }

  /** The status stays under its key, keeps its kind, and is stamped with `now2`. */
  lemma AdvancedKeepsKey(r: Record, step: string, data: Option<Record>, now1: Instant, now2: Instant)
    ensures var a := Advanced(r, step, data, now1, now2);
      && KeyOf(a, "user_id") == KeyOf(r, "user_id")
      && Get(a, "document_type") == Get(r, "document_type")
      && Get(a, "updated_at") == Str(IsoFormat(now2))
  {
  }

  /** Interview data: the `welcome_shown` flag goes onto the status, the rest into the responses, and no other response changes. */
  lemma AdvancedInterview(r: Record, step: string, data: Option<Record>, now1: Instant, now2: Instant)
    ensures var a := Advanced(r, step, data, now1, now2);
      if data.Some? && data.value != map[] then
        && ResponsesOf(a) == ResponsesOf(r) + (data.value - {"welcome_shown"})
        && ("welcome_shown" in data.value ==> Get(a, "welcome_shown") == data.value["welcome_shown"])
        && ("welcome_shown" !in data.value ==> Get(a, "welcome_shown") == Get(r, "welcome_shown"))
        && ("welcome_shown" in ResponsesOf(a) ==> "welcome_shown" in ResponsesOf(r))
      else
        ResponsesOf(a) == ResponsesOf(r) && Get(a, "welcome_shown") == Get(r, "welcome_shown")
  {
  }

  /** The `completed` step, and only it, marks the onboarding completed at `now1`. */
  lemma AdvancedCompletion(r: Record, step: string, data: Option<Record>, now1: Instant, now2: Instant)
    ensures var a := Advanced(r, step, data, now1, now2);
      && (step == Completed ==> Get(a, "is_completed") == Bool(true) && Get(a, "completed_at") == Str(IsoFormat(now1)))
      && (step != Completed ==> Get(a, "is_completed") == Get(r, "is_completed") && Get(a, "completed_at") == Get(r, "completed_at"))
  {
  }

  /** `reset_onboarding_status` on an existing status. */
  function ResetStatus(r: Record, now: Instant): Record
  {
    r["current_step" := Str(Welcome)]["completed_steps" := Arr([])]["is_completed" := Bool(false)]["completed_at" := Null]
      ["welcome_shown" := Bool(false)]["interview_responses" := Obj(map[])]["updated_at" := Str(IsoFormat(now))]
  }

  /** No progress: the welcome step current, no step completed, no flag set and no response recorded. */
  predicate AtStart(r: Record)
  {
    && Get(r, "current_step") == Str(Welcome)
    && StepsOf(r) == []
    && Get(r, "is_completed") == Bool(false)
    && Get(r, "welcome_shown") == Bool(false)
    && ResponsesOf(r) == map[]
  }

  lemma InitialAtStart(userId: string, freshId: string)
    ensures AtStart(InitialOnboarding(userId, freshId))
  {
  }

  /** A reset status is back at the start, whatever progress it had, without a completion time. */
  lemma ResetIsInitial(r: Record, now: Instant)
    ensures AtStart(ResetStatus(r, now))
    ensures Get(ResetStatus(r, now), "completed_at") == Null
  {
  }

  /** A stored status stays storable once reset: every field the reset writes is a plain value. */
  lemma ResetSerialisable(r: Record, now: Instant)
    requires SerialisableRecord(r)
    ensures SerialisableRecord(ResetStatus(r, now))
  {
  }

  /** A reset status stays under its key and keeps its kind. */
  lemma ResetKeepsKey(r: Record, now: Instant)
    ensures KeyOf(ResetStatus(r, now), "user_id") == KeyOf(r, "user_id")
    ensures Get(ResetStatus(r, now), "document_type") == Get(r, "document_type")
  {
  }

  // ---------------------------------------------------------------------------
  // Chat sessions
  // ---------------------------------------------------------------------------

  /** `title[:100]`. */
  function Truncated(title: string): (t: string)
    ensures |t| <= TitleLimit && t <= title
    ensures |title| <= TitleLimit ==> t == title
    ensures |title| > TitleLimit ==> |t| == TitleLimit
  {
    if |title| <= TitleLimit then title else title[..TitleLimit]
  }

  /** The session document `create_chat_session` stores. */
  function SessionRecord(userId: string, title: string, freshId: string): Record
  {
    map["session_title" := Str(Truncated(title)), "document_type" := Str(ChatType), "user_id" := Str(userId), "id" := Str(freshId)]
  }

  function MessagesOf(r: Record): seq<Value>
  {
    match Get(r, "messages")
    case Arr(e) => e
    case _ => []
  }

  /** `add_message_to_session` on a session: the message appended, the count taken from the list, `updated_at` stamped. */
  function WithMessage(s: Record, message: Value, now: Instant): Record
  {
    s["messages" := Arr(MessagesOf(s) + [message])]["message_count" := Int(|MessagesOf(s)| + 1)]["updated_at" := Str(IsoFormat(now))]
  }

  /** The message count always equals the number of messages, and earlier messages are kept in order. */
  lemma WithMessageCount(s: Record, message: Value, now: Instant)
    ensures var a := WithMessage(s, message, now);
      && MessagesOf(a) == MessagesOf(s) + [message]
      && Get(a, "message_count") == Int(|MessagesOf(a)|)
      && KeyOf(a, "user_id") == KeyOf(s, "user_id")
      && Get(a, "document_type") == Get(s, "document_type")
      && Get(a, "updated_at") == Str(IsoFormat(now))
  {
  }

  /** A session with a message appended can be stored exactly when the message can. */
  lemma WithMessageSerialisable(s: Record, message: Value, now: Instant)
    requires SerialisableRecord(s)
    ensures SerialisableRecord(WithMessage(s, message, now)) <==> Serialisable(message)
  {
    var msgs := MessagesOf(s) + [message];
    assert Serialisable(Get(s, "messages"));
    assert WithMessage(s, message, now)["messages"] == Arr(msgs);
    assert msgs[|msgs| - 1] == message;
  }

  /** `WHERE c.user_id = @user_id AND c.id = @session_id AND c.document_type = @doc_type`. */
  function SessionQuery(userId: string, sessionId: string): Record -> bool
  {
    r => Get(r, "user_id") == Str(userId) && Get(r, "id") == Str(sessionId) && Get(r, "document_type") == Str(ChatType)
  }

  /** The session stored under (session id, user), if that document is a chat session. */
  function SessionAt(docs: seq<Record>, userId: string, sessionId: string): Option<Record>
  {
    match Lookup(docs, "user_id", DocKey(sessionId, userId))
    case Some(d) => if Get(d, "document_type") == Str(ChatType) then Some(d) else None
    case None => None
  }

  /**
   * `get_recent_chat_sessions`: the user's sessions, most recently updated first, at most
   * `limit` of them; a negative limit makes the store reject the query, which reads as none.
   */
  function Recent(docs: seq<Record>, userId: string, limit: int): seq<Record>
  {
    if limit < 0 then []
    else
      var q := Query(docs, UserAndType(userId, ChatType), Desc("updated_at"));
      if |q| <= limit then q else q[..limit]
  }

  /** A session left out of the recent list was updated no later than every session in it. */
  lemma {:induction false} RecentAreNewest(docs: seq<Record>, userId: string, limit: int, x: Record)
    requires x in docs && Get(x, "user_id") == Str(userId) && Get(x, "document_type") == Str(ChatType)
    requires x !in Recent(docs, userId, limit)
    ensures forall y :: y in Recent(docs, userId, limit) ==> InOrder(y, x, Desc("updated_at"))
  {
    var q := Query(docs, UserAndType(userId, ChatType), Desc("updated_at"));
    assert x in q;
    var j :| 0 <= j < |q| && q[j] == x;
    forall y | y in Recent(docs, userId, limit)
      ensures InOrder(y, x, Desc("updated_at"))
    {
      var r := Recent(docs, userId, limit);
      var i :| 0 <= i < |r| && r[i] == y;
      assert r[i] == q[i];
    }
  }

  /** The recent sessions are at most `limit` of the user's sessions, newest first. */
  lemma RecentShape(docs: seq<Record>, userId: string, limit: int)
    ensures var r := Recent(docs, userId, limit);
      && (limit >= 0 ==> |r| <= limit)
      && (forall x :: x in r ==> x in docs && Get(x, "user_id") == Str(userId) && Get(x, "document_type") == Str(ChatType))
      && Sorted(r, Desc("updated_at"))
  {
    if limit >= 0 {
      var q := Query(docs, UserAndType(userId, ChatType), Desc("updated_at"));
      var r := Recent(docs, userId, limit);
      assert forall i :: 0 <= i < |r| ==> r[i] == q[i];
      assert forall x :: x in r ==> x in q;
    }
  }

  /** When the user has no more than `limit` sessions, all of them are recent. */
  lemma RecentComplete(docs: seq<Record>, userId: string, limit: int)
    ensures 0 <= limit && |Filter(docs, UserAndType(userId, ChatType))| <= limit ==>
      forall x :: x in docs && Get(x, "user_id") == Str(userId) && Get(x, "document_type") == Str(ChatType) ==>
        x in Recent(docs, userId, limit)
  {
    if 0 <= limit {
      var q := Query(docs, UserAndType(userId, ChatType), Desc("updated_at"));
      assert |q| == |multiset(q)| == |Filter(docs, UserAndType(userId, ChatType))|;
    }
  }

  /** The keys of the given sessions (what `delete_all_chat_sessions` deletes). */
  function SessionKeys(ss: seq<Record>, userId: string): set<DocKey>
  {
    if ss == [] then {} else SessionKeys(ss[..|ss| - 1], userId) + {DocKey(IdOf(ss[|ss| - 1]), userId)}
  }

  lemma {:induction false} SessionKeysFresh(ss: seq<Record>, userId: string, x: Record)
    requires forall j :: 0 <= j < |ss| ==> IdOf(ss[j]) != IdOf(x)
    ensures DocKey(IdOf(x), userId) !in SessionKeys(ss, userId)
  {
    if ss != [] {
      SessionKeysFresh(ss[..|ss| - 1], userId, x);
    }
  }

  lemma PrefixWithin(q: seq<Record>, n: nat)
    requires n <= |q|
    ensures multiset(q[..n]) <= multiset(q)
  {
    assert q == q[..n] + q[n..];
  }

  /** The recent sessions are a selection of the store's documents. */
  lemma RecentFromStore(docs: seq<Record>, userId: string, limit: int)
    ensures multiset(Recent(docs, userId, limit)) <= multiset(docs)
  {
    var ss := Recent(docs, userId, limit);
    if limit >= 0 {
      var q := Query(docs, UserAndType(userId, ChatType), Desc("updated_at"));
      if |q| > limit {
        PrefixWithin(q, limit);
      }
      assert multiset(q) == multiset(Filter(docs, UserAndType(userId, ChatType)));
    }
  }

  /** The recent sessions are stored, each under its own key, and no two share an id. */
  lemma RecentDistinct(docs: seq<Record>, userId: string, limit: int)
    requires WellFormed(docs, "user_id")
    ensures var ss := Recent(docs, userId, limit);
      && (forall i :: 0 <= i < |ss| ==> Lookup(docs, "user_id", DocKey(IdOf(ss[i]), userId)) == Some(ss[i]))
      && (forall i, j :: 0 <= i < j < |ss| ==> IdOf(ss[i]) != IdOf(ss[j]))
  {
    var ss := Recent(docs, userId, limit);
    RecentFromStore(docs, userId, limit);
    DistinctKeys(docs, "user_id", ss);
    forall i | 0 <= i < |ss|
      ensures Lookup(docs, "user_id", DocKey(IdOf(ss[i]), userId)) == Some(ss[i])
      ensures KeyOf(ss[i], "user_id") == Some(DocKey(IdOf(ss[i]), userId))
    {
      assert ss[i] in ss;
      OwnedKey(docs, ss[i], userId);
    }
  }

  /** Everything `delete_user_profile` removes: the profile, the onboarding status and up to a batch of sessions. */
  function CascadeKeys(docs: seq<Record>, userId: string): set<DocKey>
  {
    FirstKey(docs, userId, ProfileType) + FirstKey(docs, userId, OnboardingType)
      + SessionKeys(Recent(docs, userId, DeleteBatch), userId)
  }

  // ---------------------------------------------------------------------------
  // The repositories
  // ---------------------------------------------------------------------------

  class OnboardingRepository {
    const container: Container

    ghost predicate Valid()
      reads this, container
    {
      container.Valid() && container.path == "user_id"
    }

    constructor (container: Container)
      requires container.Valid() && container.path == "user_id"
      ensures this.container == container && Valid()
    {
      this.container := container;
    }

    /** `create_onboarding_status`: a store failure raises. */
    method Create(userId: string, freshId: string) returns (r: Result<Record>)
      requires Valid()
      modifies container
      ensures Valid()
      ensures r.Ok? <==> Lookup(old(container.docs), "user_id", DocKey(freshId, userId)).None?
      ensures r.Ok? ==> r.value == InitialOnboarding(userId, freshId) && container.docs == old(container.docs) + [r.value]
      ensures r.Ok? ==> Written(old(container.docs), container.docs, "user_id", DocKey(freshId, userId), r.value)
      ensures r.Err? ==> container.docs == old(container.docs)
    {
      var body := InitialOnboarding(userId, freshId);
      InitialOnboardingKey(userId, freshId);
      var res := container.CreateItem(body);
      match res {
        case Done(created) => r := Ok(created);
        case Failed(_) => r := Err("The store refused the onboarding status");
      }
    }

    /** `get_onboarding_status`: the first onboarding document of the user. */
    method Get(userId: string) returns (r: Option<Record>)
      requires Valid()
      ensures r == FirstOf(container.docs, userId, OnboardingType)
    {
      var items := container.QueryItems(UserAndType(userId, OnboardingType), Unordered);
      SortByUnordered(Filter(container.docs, UserAndType(userId, OnboardingType)));
      r := First(items);
    }

    /**
     * `update_onboarding_step`: the status (created with `freshId` when the user has none)
     * advanced to `step` and written back; `None` when the creation fails.
     */
    method UpdateStep(userId: string, step: string, data: Option<Record>, freshId: string, now1: Instant, now2: Instant)
      returns (r: Option<Record>)
      requires Valid()
      modifies container
      ensures Valid()
      ensures var cur := FirstOf(old(container.docs), userId, OnboardingType);
        cur.None? && Lookup(old(container.docs), "user_id", DocKey(freshId, userId)).Some? ==>
          r.None? && container.docs == old(container.docs)
      ensures var cur := FirstOf(old(container.docs), userId, OnboardingType);
        var start := if cur.Some? then cur.value else InitialOnboarding(userId, freshId);
        (cur.Some? || Lookup(old(container.docs), "user_id", DocKey(freshId, userId)).None?) ==>
          if SerialisableData(data) then
            && r == Some(Advanced(start, step, data, now1, now2))
            && Written(old(container.docs), container.docs, "user_id", DocKey(IdOf(start), userId), r.value)
          else
            r.None? && container.docs == old(container.docs) + (if cur.Some? then [] else [start])
    {
      var cur := Get(userId);
      var start: Record;
      ghost var base := container.docs;
      if cur.Some? {
        FirstOfFacts(base, userId, OnboardingType);
        OwnedKey(base, cur.value, userId);
        start := cur.value;
      } else {
        var created := Create(userId, freshId);
        if created.Err? {
          r := None;
          return;
        }
        start := created.value;
        InitialOnboardingKey(userId, freshId);
      }
      assert SerialisableRecord(start);
      r := Advance(start, userId, step, data, now1, now2);
    }

    /** The replace of `update_onboarding_step`: the stored status advanced and written back. */
    method Advance(start: Record, userId: string, step: string, data: Option<Record>, now1: Instant, now2: Instant)
      returns (r: Option<Record>)
      requires Valid() && SerialisableRecord(start)
      requires KeyOf(start, "user_id") == Some(DocKey(IdOf(start), userId))
      requires Lookup(container.docs, "user_id", DocKey(IdOf(start), userId)).Some?
      modifies container
      ensures Valid()
      ensures SerialisableData(data) ==>
        && r == Some(Advanced(start, step, data, now1, now2))
        && Written(old(container.docs), container.docs, "user_id", DocKey(IdOf(start), userId), r.value)
      ensures !SerialisableData(data) ==> r.None? && container.docs == old(container.docs)
    {
      var body := Advanced(start, step, data, now1, now2);
      AdvancedKeepsKey(start, step, data, now1, now2);
      AdvancedSerialisable(start, step, data, now1, now2);
      var res := container.ReplaceItem(IdOf(start), body);
      match res {
        case Done(_) => r := Some(body);
        case Failed(_) => r := None;
      }
    }

    /** `delete_onboarding_status`: removes the user's first onboarding document, if any; `true` either way. */
    method DeleteStatus(userId: string) returns (ok: bool)
      requires Valid()
      modifies container
      ensures Valid()
      ensures ok
      ensures Removed(old(container.docs), container.docs, "user_id", FirstKey(old(container.docs), userId, OnboardingType))
      ensures container.docs == old(container.docs)
        || exists i :: (&& 0 <= i < |old(container.docs)| && Values.Get(old(container.docs)[i], "document_type") == Str(OnboardingType)
                        && container.docs == old(container.docs)[..i] + old(container.docs)[i + 1..])
    {
      var cur := Get(userId);
      if cur.None? {
        ok := true;
        return;
      }
      ghost var base := container.docs;
      ghost var key := DocKey(IdOf(cur.value), userId);
      FirstOfFacts(base, userId, OnboardingType);
      OwnedKey(base, cur.value, userId);
      assert FirstKey(base, userId, OnboardingType) == {key};
      var found := container.DeleteItem(IdOf(cur.value), userId);
      RemovedIsStatus(base, container.docs, cur.value, userId);
      ok := true;
    }

    /** `reset_onboarding_status`: a new status when the user has none, otherwise the stored one reset. */
    method Reset(userId: string, freshId: string, now: Instant) returns (r: Option<Record>)
      requires Valid()
      modifies container
      ensures Valid()
      ensures var cur := FirstOf(old(container.docs), userId, OnboardingType);
        cur.None? ==>
          if Lookup(old(container.docs), "user_id", DocKey(freshId, userId)).None? then
            r == Some(InitialOnboarding(userId, freshId)) && container.docs == old(container.docs) + [r.value]
          else
            r.None? && container.docs == old(container.docs)
      ensures var cur := FirstOf(old(container.docs), userId, OnboardingType);
        cur.Some? ==>
          && r == Some(ResetStatus(cur.value, now))
          && Written(old(container.docs), container.docs, "user_id", DocKey(IdOf(cur.value), userId), r.value)
    {
      var cur := Get(userId);
      if cur.None? {
        var created := Create(userId, freshId);
        r := if created.Ok? then Some(created.value) else None;
        return;
      }
      FirstOfFacts(container.docs, userId, OnboardingType);
      OwnedKey(container.docs, cur.value, userId);
      assert SerialisableRecord(cur.value);
      var body := ResetStatus(cur.value, now);
      ResetKeepsKey(cur.value, now);
      ResetSerialisable(cur.value, now);
      var res := container.ReplaceItem(IdOf(cur.value), body);
      match res {
        case Done(_) => r := Some(body);
        case Failed(_) => r := None;
      }
    }
  }

  class ChatSessionRepository {
    const container: Container

    ghost predicate Valid()
      reads this, container
    {
      container.Valid() && container.path == "user_id"
    }

    constructor (container: Container)
      requires container.Valid() && container.path == "user_id"
      ensures this.container == container && Valid()
    {
      this.container := container;
    }

    /** `create_chat_session`: a store failure raises. */
    method Create(userId: string, title: string, freshId: string) returns (r: Result<Record>)
      requires Valid()
      modifies container
      ensures Valid()
      ensures r.Ok? <==> Lookup(old(container.docs), "user_id", DocKey(freshId, userId)).None?
      ensures r.Ok? ==> r.value == SessionRecord(userId, title, freshId) && container.docs == old(container.docs) + [r.value]
      ensures r.Err? ==> container.docs == old(container.docs)
    {
      var body := SessionRecord(userId, title, freshId);
      var res := container.CreateItem(body);
      match res {
        case Done(created) => r := Ok(created);
        case Failed(_) => r := Err("The store refused the chat session");
      }
    }

    /** `get_chat_session`: the document under (session id, user) when it is a chat session. */
    method Get(userId: string, sessionId: string) returns (r: Option<Record>)
      requires Valid()
      ensures r == SessionAt(container.docs, userId, sessionId)
    {
      var items := container.QueryItems(SessionQuery(userId, sessionId), Unordered);
      var key := DocKey(sessionId, userId);
      if items != [] {
        assert items[0] in items;
        LookupMember(container.docs, "user_id", items[0]);
        r := Some(items[0]);
      } else {
        match Lookup(container.docs, "user_id", key) {
          case Some(d) =>
            assert d in container.docs;
          case None =>
        }
        r := None;
      }
    }

    /** `add_message_to_session`: `None` when the session does not exist. */
    method AddMessage(userId: string, sessionId: string, message: Value, now: Instant) returns (r: Option<Record>)
      requires Valid()
      modifies container
      ensures Valid()
      ensures var s := SessionAt(old(container.docs), userId, sessionId);
        s.None? ==> r.None? && container.docs == old(container.docs)
      ensures var s := SessionAt(old(container.docs), userId, sessionId);
        s.Some? ==>
          if Serialisable(message) then
            && r == Some(WithMessage(s.value, message, now))
            && Written(old(container.docs), container.docs, "user_id", DocKey(sessionId, userId), r.value)
          else
            r.None? && container.docs == old(container.docs)
    {
      var s := Get(userId, sessionId);
      if s.None? {
        r := None;
        return;
      }
      var body := WithMessage(s.value, message, now);
      WithMessageCount(s.value, message, now);
      WithMessageSerialisable(s.value, message, now);
      var res := container.ReplaceItem(IdOf(s.value), body);
      match res {
        case Done(_) => r := Some(body);
        case Failed(_) => r := None;
      }
    }

    /** `get_recent_chat_sessions`. */
    method GetRecent(userId: string, limit: int) returns (r: seq<Record>)
      requires Valid()
      ensures r == Recent(container.docs, userId, limit)
      ensures limit >= 0 ==> |r| <= limit
      ensures forall x :: x in r ==> x in container.docs && Values.Get(x, "user_id") == Str(userId) && Values.Get(x, "document_type") == Str(ChatType)
      ensures Sorted(r, Desc("updated_at"))
      ensures 0 <= limit && |Filter(container.docs, UserAndType(userId, ChatType))| <= limit ==>
        forall x :: x in container.docs && Values.Get(x, "user_id") == Str(userId) && Values.Get(x, "document_type") == Str(ChatType) ==> x in r
    {
      RecentShape(container.docs, userId, limit);
      RecentComplete(container.docs, userId, limit);
      if limit < 0 {
        r := [];
        return;
      }
      var items := container.QueryItems(UserAndType(userId, ChatType), Desc("updated_at"));
      r := if |items| <= limit then items else items[..limit];
    }

    /** `delete_chat_session`: `false` when there is no such session. */
    method DeleteSession(userId: string, sessionId: string) returns (deleted: bool)
      requires Valid()
      modifies container
      ensures Valid()
      ensures deleted == SessionAt(old(container.docs), userId, sessionId).Some?
      ensures Removed(old(container.docs), container.docs, "user_id", if deleted then {DocKey(sessionId, userId)} else {})
    {
      var s := Get(userId, sessionId);
      if s.None? {
        deleted := false;
        return;
      }
      var _ := container.DeleteItem(IdOf(s.value), userId);
      deleted := true;
    }

    /**
     * `delete_all_chat_sessions`: deletes the user's most recent `DeleteBatch` sessions.
     * Each delete finds its session, so the store never raises and the result is `true`.
     */
    method DeleteAll(userId: string) returns (ok: bool)
      requires Valid()
      modifies container
      ensures Valid()
      ensures ok
      ensures Removed(old(container.docs), container.docs, "user_id", SessionKeys(Recent(old(container.docs), userId, DeleteBatch), userId))
      ensures |container.docs| == |old(container.docs)| - |Recent(old(container.docs), userId, DeleteBatch)|
    {
      var sessions := GetRecent(userId, DeleteBatch);
      ghost var base := container.docs;
      RecentDistinct(base, userId, DeleteBatch);
      var i := 0;
      while i < |sessions|
        invariant 0 <= i <= |sessions|
        invariant Valid()
        invariant Removed(base, container.docs, "user_id", SessionKeys(sessions[..i], userId))
        invariant |container.docs| == |base| - i
      {
        DeleteNext(sessions, i, base, userId);
        i := i + 1;
      }
      assert sessions[..|sessions|] == sessions;
      ok := true;
    }

    /** One turn of `delete_all_chat_sessions`' loop. */
    method DeleteNext(sessions: seq<Record>, i: nat, ghost base: seq<Record>, userId: string)
      requires Valid() && i < |sessions|
      requires forall j :: 0 <= j < |sessions| ==> Lookup(base, "user_id", DocKey(IdOf(sessions[j]), userId)) == Some(sessions[j])
      requires forall j, k :: 0 <= j < k < |sessions| ==> IdOf(sessions[j]) != IdOf(sessions[k])
      requires Removed(base, container.docs, "user_id", SessionKeys(sessions[..i], userId))
      modifies container
      ensures Valid()
      ensures Removed(base, container.docs, "user_id", SessionKeys(sessions[..i + 1], userId))
      ensures |container.docs| == |old(container.docs)| - 1
    {
      var key := DocKey(IdOf(sessions[i]), userId);
      SessionKeysFresh(sessions[..i], userId, sessions[i]);
      ghost var before := container.docs;
      var found := container.DeleteItem(IdOf(sessions[i]), userId);
      assert found;
      RemoveStep(base, before, container.docs, "user_id", SessionKeys(sessions[..i], userId), key);
      assert sessions[..i + 1][..i] == sessions[..i];
    }
  }

  class UserProfileRepository {
    const container: Container
    /** The module-level `onboarding_repo` and `chat_session_repo` the profile deletion calls. */
    const onboarding: OnboardingRepository
    const chats: ChatSessionRepository

    ghost predicate Valid()
      reads this, container, onboarding, chats
    {
      && container.Valid() && container.path == "user_id"
      && onboarding.container == container && chats.container == container
    }

    constructor (container: Container, onboarding: OnboardingRepository, chats: ChatSessionRepository)
      requires container.Valid() && container.path == "user_id"
      requires onboarding.container == container && chats.container == container
      ensures this.container == container && this.onboarding == onboarding && this.chats == chats && Valid()
    {
      this.container := container;
      this.onboarding := onboarding;
      this.chats := chats;
    }

    /** `get_user_profile`: the first profile document of the user. */
    method GetProfile(userId: string) returns (r: Option<Record>)
      requires Valid()
      ensures r == FirstOf(container.docs, userId, ProfileType)
      ensures r.Some? ==> r.value in container.docs && Values.Get(r.value, "user_id") == Str(userId)
      ensures r.None? <==> forall x :: x in container.docs ==> !(Values.Get(x, "user_id") == Str(userId) && Values.Get(x, "document_type") == Str(ProfileType))
    {
      var items := container.QueryItems(UserAndType(userId, ProfileType), Unordered);
      SortByUnordered(Filter(container.docs, UserAndType(userId, ProfileType)));
      r := First(items);
      FirstOfFacts(container.docs, userId, ProfileType);
    }

    /**
     * `create_user_profile`: refused when the user has a profile; otherwise the profile
     * and then the initial onboarding status are created. A store failure raises, and a
     * failure on the second create leaves the profile written.
     */
    method CreateProfile(userId: string, request: Record, profileId: string, onboardingId: string) returns (r: Result<Record>)
      requires Valid()
      modifies container
      ensures Valid()
      ensures var exists_ := FirstOf(old(container.docs), userId, ProfileType).Some?;
        var pk := DocKey(profileId, userId);
        var profile := ProfileRecord(userId, request, profileId);
        exists_ || !SerialisableRecord(profile) || Lookup(old(container.docs), "user_id", pk).Some? ==>
          r.Err? && container.docs == old(container.docs)
      ensures var exists_ := FirstOf(old(container.docs), userId, ProfileType).Some?;
        var pk := DocKey(profileId, userId);
        var ok := DocKey(onboardingId, userId);
        var profile := ProfileRecord(userId, request, profileId);
        !exists_ && SerialisableRecord(profile) && Lookup(old(container.docs), "user_id", pk).None? ==>
          if ok != pk && Lookup(old(container.docs), "user_id", ok).None? then
            r == Ok(profile) && container.docs == old(container.docs) + [profile, InitialOnboarding(userId, onboardingId)]
          else
            r.Err? && container.docs == old(container.docs) + [profile]
    {
      var existing := GetProfile(userId);
      if existing.Some? {
        r := Err("User profile already exists");
        return;
      }
      var profile := ProfileRecord(userId, request, profileId);
      ProfileRecordFields(userId, request, profileId);
      InitialOnboardingKey(userId, onboardingId);
      r := CreatePair(profile, InitialOnboarding(userId, onboardingId));
    }

    /** The two `create_item` calls of `create_user_profile`: the first failure raises. */
    method CreatePair(profile: Record, status: Record) returns (r: Result<Record>)
      requires Valid() && KeyOf(profile, "user_id").Some? && KeyOf(status, "user_id").Some?
      modifies container
      ensures Valid()
      ensures var pk := KeyOf(profile, "user_id").value;
        var sk := KeyOf(status, "user_id").value;
        if !SerialisableRecord(profile) || Lookup(old(container.docs), "user_id", pk).Some? then
          r.Err? && container.docs == old(container.docs)
        else if SerialisableRecord(status) && sk != pk && Lookup(old(container.docs), "user_id", sk).None? then
          r == Ok(profile) && container.docs == old(container.docs) + [profile, status]
        else
          r.Err? && container.docs == old(container.docs) + [profile]
    {
      var res := container.CreateItem(profile);
      if res.Failed? {
        r := Err("The store refused the profile");
        return;
      }
      var res2 := container.CreateItem(status);
      if res2.Failed? {
        r := Err("The store refused the onboarding status");
        return;
      }
      assert container.docs == old(container.docs) + [profile, status];
      r := Ok(profile);
    }

    /**
     * `update_user_profile`: `None` when the user has no profile or the store refuses the
     * replace; otherwise the known fields updated, both timestamps set, and the document
     * replaced. The partition is taken from the new document.
     */
    method UpdateProfile(userId: string, updates: Record, now1: Instant, now2: Instant) returns (r: Option<Record>)
      requires Valid()
      modifies container
      ensures Valid()
      ensures FirstOf(old(container.docs), userId, ProfileType).None? ==> r.None? && container.docs == old(container.docs)
      ensures var cur := FirstOf(old(container.docs), userId, ProfileType);
        cur.Some? ==>
          var body := Touched(KnownFields(cur.value, updates), now1, now2);
          var key := KeyOf(body, "user_id");
          if SerialisableRecord(body) && key.Some? && key.value.id == IdOf(cur.value) && Lookup(old(container.docs), "user_id", key.value).Some? then
            r == Some(body) && Written(old(container.docs), container.docs, "user_id", key.value, body)
          else
            r.None? && container.docs == old(container.docs)
    {
      var cur := GetProfile(userId);
      if cur.None? {
        r := None;
        return;
      }
      var merged := SetKnownFields(cur.value, updates);
      var body := Touched(merged, now1, now2);
      var res := container.ReplaceItem(IdOf(cur.value), body);
      match res {
        case Done(_) => r := Some(body);
        case Failed(_) => r := None;
      }
    }

    /**
     * `delete_user_profile`: `false` when the user has no profile; otherwise the profile,
     * the onboarding status and the most recent `DeleteBatch` chat sessions are deleted,
     * and nothing else.
     */
    method DeleteProfile(userId: string) returns (deleted: bool)
      requires Valid()
      modifies container
      ensures Valid()
      ensures deleted == FirstOf(old(container.docs), userId, ProfileType).Some?
      ensures Removed(old(container.docs), container.docs, "user_id", if deleted then CascadeKeys(old(container.docs), userId) else {})
    {
      var profile := GetProfile(userId);
      if profile.None? {
        deleted := false;
        return;
      }
      ghost var d0 := container.docs;
      RemoveProfile(profile.value, userId);
      ghost var d1 := container.docs;
      var _ := onboarding.DeleteStatus(userId);
      ghost var d2 := container.docs;
      ChatsKept(d1, d2, userId);
      var _ := chats.DeleteAll(userId);
      CascadeCompose(d0, d1, d2, container.docs, userId);
      deleted := true;
    }

    /** The first step of `delete_user_profile`: the profile found by the query is deleted. */
    method RemoveProfile(profile: Record, userId: string)
      requires Valid() && FirstOf(container.docs, userId, ProfileType) == Some(profile)
      modifies container
      ensures Valid()
      ensures Removed(old(container.docs), container.docs, "user_id", FirstKey(old(container.docs), userId, ProfileType))
      ensures Filter(container.docs, UserAndType(userId, OnboardingType)) == Filter(old(container.docs), UserAndType(userId, OnboardingType))
      ensures Filter(container.docs, UserAndType(userId, ChatType)) == Filter(old(container.docs), UserAndType(userId, ChatType))
    {
      ghost var d0 := container.docs;
      FirstOfFacts(d0, userId, ProfileType);
      OwnedKey(d0, profile, userId);
      var pk := DocKey(IdOf(profile), userId);
      assert FirstKey(d0, userId, ProfileType) == {pk};
      var found := container.DeleteItem(IdOf(profile), userId);
      ProfileRemovalKeepsKinds(d0, container.docs, profile, userId);
    }
  }

  /** The document the status deletion removes is an onboarding status. */
  lemma RemovedIsStatus(d0: seq<Record>, d1: seq<Record>, status: Record, userId: string)
    requires WellFormed(d0, "user_id") && FirstOf(d0, userId, OnboardingType) == Some(status)
    requires exists i :: (&& 0 <= i < |d0| && KeyOf(d0[i], "user_id") == KeyOf(status, "user_id")
                          && d1 == d0[..i] + d0[i + 1..])
    ensures exists i :: (&& 0 <= i < |d0| && Get(d0[i], "document_type") == Str(OnboardingType)
                         && d1 == d0[..i] + d0[i + 1..])
  {
    var i :| 0 <= i < |d0| && KeyOf(d0[i], "user_id") == KeyOf(status, "user_id") && d1 == d0[..i] + d0[i + 1..];
    FirstOfFacts(d0, userId, OnboardingType);
    KeysDistinguish(d0, "user_id", d0[i], status);
  }

  /** Deleting the user's profile leaves their onboarding status and chat sessions as they were. */
  lemma ProfileRemovalKeepsKinds(d0: seq<Record>, d1: seq<Record>, profile: Record, userId: string)
    requires WellFormed(d0, "user_id") && FirstOf(d0, userId, ProfileType) == Some(profile)
    requires exists i :: (&& 0 <= i < |d0| && KeyOf(d0[i], "user_id") == KeyOf(profile, "user_id")
                          && d1 == d0[..i] + d0[i + 1..])
    ensures Filter(d1, UserAndType(userId, OnboardingType)) == Filter(d0, UserAndType(userId, OnboardingType))
    ensures Filter(d1, UserAndType(userId, ChatType)) == Filter(d0, UserAndType(userId, ChatType))
  {
    var i :| 0 <= i < |d0| && KeyOf(d0[i], "user_id") == KeyOf(profile, "user_id") && d1 == d0[..i] + d0[i + 1..];
    FirstOfFacts(d0, userId, ProfileType);
    KeysDistinguish(d0, "user_id", d0[i], profile);
    RemovalKeepsKind(d0, d1, i, userId, OnboardingType);
    RemovalKeepsKind(d0, d1, i, userId, ChatType);
  }

  /** Deleting the onboarding status leaves the user's chat sessions as they were. */
  lemma ChatsKept(d1: seq<Record>, d2: seq<Record>, userId: string)
    requires d2 == d1 || exists i :: (&& 0 <= i < |d1| && Get(d1[i], "document_type") == Str(OnboardingType)
                                      && d2 == d1[..i] + d1[i + 1..])
    ensures Filter(d2, UserAndType(userId, ChatType)) == Filter(d1, UserAndType(userId, ChatType))
  {
    if d2 != d1 {
      var i :| 0 <= i < |d1| && Get(d1[i], "document_type") == Str(OnboardingType) && d2 == d1[..i] + d1[i + 1..];
      RemovalKeepsKind(d1, d2, i, userId, ChatType);
    }
  }

  /** The three deletions of `delete_user_profile` together remove exactly the cascade's keys. */
  lemma CascadeCompose(d0: seq<Record>, d1: seq<Record>, d2: seq<Record>, d3: seq<Record>, userId: string)
    requires Removed(d0, d1, "user_id", FirstKey(d0, userId, ProfileType))
    requires Filter(d1, UserAndType(userId, OnboardingType)) == Filter(d0, UserAndType(userId, OnboardingType))
    requires Filter(d1, UserAndType(userId, ChatType)) == Filter(d0, UserAndType(userId, ChatType))
    requires Removed(d1, d2, "user_id", FirstKey(d1, userId, OnboardingType))
    requires Filter(d2, UserAndType(userId, ChatType)) == Filter(d1, UserAndType(userId, ChatType))
    requires Removed(d2, d3, "user_id", SessionKeys(Recent(d2, userId, DeleteBatch), userId))
    ensures Removed(d0, d3, "user_id", CascadeKeys(d0, userId))
  {
    assert FirstKey(d1, userId, OnboardingType) == FirstKey(d0, userId, OnboardingType);
    assert Recent(d2, userId, DeleteBatch) == Recent(d0, userId, DeleteBatch);
    RemovedThen(d0, d1, d2, "user_id", FirstKey(d0, userId, ProfileType), FirstKey(d0, userId, OnboardingType));
    RemovedThen(d0, d2, d3, "user_id", FirstKey(d0, userId, ProfileType) + FirstKey(d0, userId, OnboardingType),
                SessionKeys(Recent(d0, userId, DeleteBatch), userId));
  }

  /** After a successful create, the user has a profile (so a second create is refused) and an onboarding status. */
  lemma CreatedProfileFound(base: seq<Record>, userId: string, request: Record, profileId: string, onboardingId: string)
    ensures var docs := base + [ProfileRecord(userId, request, profileId), InitialOnboarding(userId, onboardingId)];
      FirstOf(docs, userId, ProfileType).Some? && FirstOf(docs, userId, OnboardingType).Some?
  {
    var profile := ProfileRecord(userId, request, profileId);
    var status := InitialOnboarding(userId, onboardingId);
    var docs := base + [profile, status];
    ProfileRecordFields(userId, request, profileId);
    InitialOnboardingKey(userId, onboardingId);
    assert profile in docs && status in docs;
    FirstOfFacts(docs, userId, ProfileType);
    FirstOfFacts(docs, userId, OnboardingType);
  }
}
