/**
 * Preview codes: invite-style codes that grant early access. A code is a document in
 * its own container, keyed and partitioned by the code itself, and it is used at most
 * once: redemption moves it from unused to used, and an administrative reset moves it
 * back (or deletes it). The `PreviewCode` model is not part of this model; its
 * conversions are taken to leave a record as it is.
 */
module PreviewCodes {
  import opened Wrappers
  import opened Strings
  import opened IsoTime
  import opened Values
  import opened Ordering
  import opened Store

  /** `DocumentType.PREVIEW_CODE.value`. */
  const PreviewType: string := "preview_code"

  /** The container's partition key path: a code is its own partition. */
  const CodePath: string := "code"

  const InvalidCodeMessage: string := "Invalid preview code. Please check your code and try again."
  const UsedCodeMessage: string := "This preview code has already been used"
  const ValidCodeMessage: string := "Preview code is valid"
  const ServerErrorMessage: string := "Server error validating preview code"

  /** The record `create_preview_code` stores: unused, with no user and no time of use. */
  function NewCode(code: string, userId: string): Record
  {
    map["id" := Str(code), "code" := Str(code), "document_type" := Str(PreviewType), "user_id" := Str(userId),
        "is_used" := Bool(false), "used_by_user_id" := Null, "used_at" := Null]
  }

  predicate IsUsed(r: Record)
  {
    Truthy(Get(r, "is_used"))
  }

  /** The key the code is stored and looked up under: the code as id and as partition. */
  function CodeKey(code: string): DocKey
  {
    DocKey(code, code)
  }

  lemma NewCodeFields(code: string, userId: string)
    ensures KeyOf(NewCode(code, userId), CodePath) == Some(CodeKey(code))
    ensures !IsUsed(NewCode(code, userId))
    ensures Get(NewCode(code, userId), "used_by_user_id") == Null && Get(NewCode(code, userId), "used_at") == Null
  {
  }

  /**
   * `code.strip().upper()`: the code without the white space around it, upper-cased, so
   * that it neither starts nor ends with white space.
   */
  function Normalize(code: string): (r: string)
    ensures |r| <= |code|
    ensures exists i :: UpperAround(code, r, i)
    ensures r != [] ==> !IsSpace(r[0]) && !IsSpace(r[|r| - 1])
  {
    StripUpperSlice(code);
    Upper(Strip(code))
  }

  lemma NormalizeIdempotent(code: string)
    ensures Normalize(Normalize(code)) == Normalize(code)
  {
    StripUpperIdempotent(code);
  }

  /** The code after redemption by `userId`: used, by that user, at `t1`, updated at `t2`. */
  function Redeemed(r: Record, userId: string, t1: Instant, t2: Instant): Record
  {
    r["is_used" := Bool(true)]["used_by_user_id" := Str(userId)]["used_at" := Str(IsoFormat(t1))]["updated_at" := Str(IsoFormat(t2))]
  }

  /** The code after a reset: unused, with no user and no time of use. */
  function Released(r: Record, now: Instant): Record
  {
    r["is_used" := Bool(false)]["used_by_user_id" := Null]["used_at" := Null]["updated_at" := Str(IsoFormat(now))]
  }

  /** Redemption marks the code used by the caller and keeps its key and every other field. */
  lemma RedeemedFields(r: Record, userId: string, t1: Instant, t2: Instant)
    ensures var x := Redeemed(r, userId, t1, t2);
      && IsUsed(x) && x["used_by_user_id"] == Str(userId) && x["used_at"] == Str(IsoFormat(t1))
      && KeyOf(x, CodePath) == KeyOf(r, CodePath)
      && (forall k :: k in r && k !in {"is_used", "used_by_user_id", "used_at", "updated_at"} ==> x[k] == r[k])
      && (SerialisableRecord(r) ==> SerialisableRecord(x))
  {
  }

  /** A reset undoes a redemption: the code is unused again, with its key and other fields kept. */
  lemma ReleasedFields(r: Record, now: Instant)
    ensures var x := Released(r, now);
      && !IsUsed(x) && x["used_by_user_id"] == Null && x["used_at"] == Null
      && KeyOf(x, CodePath) == KeyOf(r, CodePath)
      && Released(x, now) == x
      && (forall k :: k in r && k !in {"is_used", "used_by_user_id", "used_at", "updated_at"} ==> x[k] == r[k])
      && (SerialisableRecord(r) ==> SerialisableRecord(x))
  {
  }

  /** What `validate_and_use_preview_code` returns: `(is_valid, message, error_code)`. */
  datatype Validation = Validation(valid: bool, message: string, errorCode: Option<string>)

  /** `WHERE c.document_type = @doc_type` across all partitions. */
  function IsPreview(): Record -> bool
  {
    r => Get(r, "document_type") == Str(PreviewType)
  }

  function Used(): Record -> bool
  {
    r => IsUsed(r)
  }

  /** An entry of `recent_usage`. */
  datatype Usage = Usage(code: Value, usedBy: Value, usedAt: Value)

  /** `get_preview_code_stats` without the usage rate. */
  datatype Stats = Stats(total: nat, used: nat, remaining: int, recent: seq<Usage>)

  function UsageOf(r: Record): Usage
  {
    Usage(Get(r, "code"), Get(r, "used_by_user_id"), if Truthy(Get(r, "used_at")) then Get(r, "used_at") else Null)
  }

  /** The used codes, most recently used first (a missing time of use sorts last), at most ten of them. */
  function RecentlyUsed(all: seq<Record>): (r: seq<Record>)
    ensures |r| <= 10
    ensures |r| == if |Filter(all, Used())| <= 10 then |Filter(all, Used())| else 10
    ensures forall x :: x in r ==> x in all && IsUsed(x)
    ensures Sorted(r, Desc("used_at"))
  {
    var s := SortBy(Filter(all, Used()), Desc("used_at"));
    var r := if |s| <= 10 then s else s[..10];
    forall x | x in r
      ensures x in all && IsUsed(x)
    {
      assert x in s;
      assert x in multiset(s);
      assert x in Filter(all, Used());
    }
    r
  }

  /** A used code left out of the recent list was used no later than every code in it. */
  lemma {:induction false} RecentlyUsedAreNewest(all: seq<Record>, x: Record)
    requires x in all && IsUsed(x)
    requires x !in RecentlyUsed(all)
    ensures forall y :: y in RecentlyUsed(all) ==> InOrder(y, x, Desc("used_at"))
  {
    var f := Filter(all, Used());
    var s := SortBy(f, Desc("used_at"));
    assert x in f;
    assert x in multiset(f);
    assert x in s;
    var r := RecentlyUsed(all);
    assert r == if |s| <= 10 then s else s[..10];
    forall y | y in r
      ensures InOrder(y, x, Desc("used_at"))
    {
      var i :| 0 <= i < |r| && r[i] == y;
      var j :| 0 <= j < |s| && s[j] == x;
      assert r[i] == s[i];
    }
  }

  function Usages(rs: seq<Record>): (r: seq<Usage>)
    ensures |r| == |rs| && forall i :: 0 <= i < |rs| ==> r[i] == UsageOf(rs[i])
  {
    if rs == [] then [] else [UsageOf(rs[0])] + Usages(rs[1..])
  }

  function ComputeStats(all: seq<Record>): (r: Stats)
    ensures r.total == |all| && r.used <= r.total && r.used + r.remaining == r.total
    ensures r.used == |Filter(all, Used())|
    ensures |r.recent| <= 10 && (|r.recent| == 10 || |r.recent| == r.used)
    ensures var rs := RecentlyUsed(all); |r.recent| == |rs| && forall i :: 0 <= i < |rs| ==> r.recent[i] == UsageOf(rs[i])
  {
    var used := |Filter(all, Used())|;
    var rs := RecentlyUsed(all);
    var recent := Usages(rs);
    Stats(|all|, used, |all| - used, recent)
  }

  /** Every code is counted as used exactly when all are used, and none exactly when none is. */
  lemma StatsExtremes(all: seq<Record>)
    ensures ComputeStats(all).used == ComputeStats(all).total <==> forall x :: x in all ==> IsUsed(x)
    ensures ComputeStats(all).used == 0 <==> forall x :: x in all ==> !IsUsed(x)
  {
    FilterKeepsAll(all, Used());
    FilterKeepsNone(all, Used());
  }

  /** The records `create_preview_code` would store for `codes`, in order. */
  function NewCodes(codes: seq<string>, userId: string): (r: seq<Record>)
    ensures |r| == |codes|
  {
    if codes == [] then [] else NewCodes(codes[..|codes| - 1], userId) + [NewCode(codes[|codes| - 1], userId)]
  }

  lemma NewCodesSnoc(codes: seq<string>, i: nat, userId: string)
    requires i < |codes|
    ensures NewCodes(codes[..i + 1], userId) == NewCodes(codes[..i], userId) + [NewCode(codes[i], userId)]
  {
    assert codes[..i + 1][..i] == codes[..i];
  }

  /** Codes present before creating `codes[i]` are still present after it, and so is `codes[i]`. */
  lemma StillPresent(before: seq<Record>, after: seq<Record>, codes: seq<string>, i: nat)
    requires i < |codes|
    requires forall j :: 0 <= j < i ==> Lookup(before, CodePath, CodeKey(codes[j])).Some?
    requires forall k :: k != CodeKey(codes[i]) ==> Lookup(after, CodePath, k) == Lookup(before, CodePath, k)
    requires Lookup(after, CodePath, CodeKey(codes[i])).Some?
    ensures forall j :: 0 <= j <= i ==> Lookup(after, CodePath, CodeKey(codes[j])).Some?
  {
    forall j | 0 <= j <= i
      ensures Lookup(after, CodePath, CodeKey(codes[j])).Some?
    {
      if CodeKey(codes[j]) != CodeKey(codes[i]) {
        assert Lookup(before, CodePath, CodeKey(codes[j])).Some?;
      }
    }
  }

  /** Stated on its own so that the reset proofs need not rediscover it: it only keeps their cost down. */
  lemma AppendAssoc(a: seq<Record>, b: seq<Record>, x: Record)
    ensures (a + b) + [x] == a + (b + [x])
  {
  }

  /** The code a record holds, as the reset loop reads it (`preview_code.code`). */
  function CodeOf(r: Record): string
  {
    match Get(r, "code")
    case Str(s) => s
    case _ => []
  }

  /** A used code stored under its own code as id: the codes a reset to unused can replace. */
  predicate Resettable(r: Record)
  {
    IsUsed(r) && Get(r, "id") == Str(CodeOf(r)) && Get(r, "code").Str?
  }

  function CountResettable(s: seq<Record>): (n: nat)
    ensures n <= |s|
  {
    if s == [] then 0 else CountResettable(s[..|s| - 1]) + if Resettable(s[|s| - 1]) then 1 else 0
  }

  lemma CountResettableSnoc(s: seq<Record>, i: nat)
    requires i < |s|
    ensures CountResettable(s[..i + 1]) == CountResettable(s[..i]) + if Resettable(s[i]) then 1 else 0
  {
    assert s[..i + 1][..i] == s[..i];
  }

  /** The keys the `delete_all` loop deletes. */
  function CodeKeys(s: seq<Record>): set<DocKey>
  {
    if s == [] then {} else CodeKeys(s[..|s| - 1]) + {CodeKey(CodeOf(s[|s| - 1]))}
  }

  lemma {:induction false} CodeKeysMember(s: seq<Record>, x: Record)
    requires x in s
    ensures CodeKey(CodeOf(x)) in CodeKeys(s)
  {
    if x != s[|s| - 1] {
      assert s == s[..|s| - 1] + [s[|s| - 1]];
      CodeKeysMember(s[..|s| - 1], x);
    }
  }

  /**
   * A stored document as the `mark_unused` reset leaves it: a used preview code stored
   * under its own code is released, stamped with `clock` read for that code; every
   * other document stays as it was.
   */
  function ResetDoc(v: Option<Record>, clock: string -> Instant): Option<Record>
  {
    if v.Some? && IsPreview()(v.value) && Resettable(v.value) then Some(Released(v.value, clock(CodeOf(v.value)))) else v
  }

  /**
   * A reset keeps every document under its key, leaves no preview code that a reset
   * could still release, and a second reset (with any clock) changes nothing more.
   */
  lemma ResetSettles(v: Option<Record>, clock: string -> Instant, later: string -> Instant)
    ensures var w := ResetDoc(v, clock);
      && (w.Some? <==> v.Some?)
      && (v.Some? ==> KeyOf(w.value, CodePath) == KeyOf(v.value, CodePath) && Get(w.value, "code") == Get(v.value, "code"))
      && (w.Some? && IsPreview()(w.value) ==> !Resettable(w.value))
      && ResetDoc(w, later) == w
  {
    if v.Some? && IsPreview()(v.value) && Resettable(v.value) {
      ReleasedFields(v.value, clock(CodeOf(v.value)));
    }
  }

  /** The store once the `mark_unused` loop has visited `done`: exactly the visited codes are reset. */
  ghost predicate ResetUpTo(base: seq<Record>, docs: seq<Record>, done: seq<Record>, clock: string -> Instant)
  {
    forall k :: Lookup(docs, CodePath, k)
                == if Lookup(base, CodePath, k).Some? && Lookup(base, CodePath, k).value in done
                   then ResetDoc(Lookup(base, CodePath, k), clock)
                   else Lookup(base, CodePath, k)
  }

  /** Visiting `all[i]` extends the reset to it and leaves every other document alone. */
  lemma ResetStep(base: seq<Record>, before: seq<Record>, after: seq<Record>, all: seq<Record>, i: nat,
                  clock: string -> Instant)
    requires i < |all| && WellFormed(base, CodePath) && all[i] in base && IsPreview()(all[i])
    requires ResetUpTo(base, before, all[..i], clock)
    requires Resettable(all[i]) ==>
               forall k :: Lookup(after, CodePath, k)
                           == if k == KeyOf(all[i], CodePath).value then Some(Released(all[i], clock(CodeOf(all[i]))))
                              else Lookup(before, CodePath, k)
    requires !Resettable(all[i]) ==> after == before
    ensures ResetUpTo(base, after, all[..i + 1], clock)
  {
    var x := all[i];
    LookupMember(base, CodePath, x);
    assert all[..i + 1] == all[..i] + [x];
    forall k
      ensures Lookup(after, CodePath, k)
              == if Lookup(base, CodePath, k).Some? && Lookup(base, CodePath, k).value in all[..i + 1]
                 then ResetDoc(Lookup(base, CodePath, k), clock)
                 else Lookup(base, CodePath, k)
    {
      var v := Lookup(base, CodePath, k);
      if v == Some(x) {
        assert k == KeyOf(x, CodePath).value;
      } else if v.Some? {
        assert v.value in all[..i + 1] <==> v.value in all[..i];
      }
    }
  }

  /** Once the loop has visited every preview code, each document is its reset. */
  lemma ResetComplete(base: seq<Record>, docs: seq<Record>, all: seq<Record>, clock: string -> Instant)
    requires all == Filter(base, IsPreview())
    requires ResetUpTo(base, docs, all, clock)
    ensures forall k :: Lookup(docs, CodePath, k) == ResetDoc(Lookup(base, CodePath, k), clock)
  {
    forall k
      ensures Lookup(docs, CodePath, k) == ResetDoc(Lookup(base, CodePath, k), clock)
    {
      var v := Lookup(base, CodePath, k);
      assert v.Some? ==> (v.value in all <==> IsPreview()(v.value));
    }
  }

  /** What `reset_preview_codes` returns, without the message text. */
  datatype ResetReport = ResetReport(success: bool, affectedCount: nat)

  class PreviewCodeRepository {
    const container: Container

    ghost predicate Valid()
      reads this, container
    {
      container.Valid() && container.path == CodePath
    }

    constructor (container: Container)
      requires container.Valid() && container.path == CodePath
      ensures this.container == container && Valid()
    {
      this.container := container;
    }

    /** `create_preview_code`: the code is stored as given (not normalised); a code in use raises. */
    method Create(code: string, userId: string) returns (r: Result<Record>)
      requires Valid()
      modifies container
      ensures Valid()
      ensures r.Ok? <==> Lookup(old(container.docs), CodePath, CodeKey(code)).None?
      ensures r.Ok? ==> r.value == NewCode(code, userId) && container.docs == old(container.docs) + [r.value]
      ensures r.Err? ==> container.docs == old(container.docs)
      ensures forall k :: k != CodeKey(code) ==> Lookup(container.docs, CodePath, k) == Lookup(old(container.docs), CodePath, k)
      ensures Lookup(container.docs, CodePath, CodeKey(code)).Some?
    {
      var body := NewCode(code, userId);
      NewCodeFields(code, userId);
      var res := container.CreateItem(body);
      match res {
        case Done(created) =>
          r := Ok(created);
        case Failed(_) =>
          r := Err("The preview code already exists");
      }
    }

    /** `get_preview_code`: looks up the trimmed, upper-cased code. */
    method Get(code: string) returns (r: Option<Record>)
      requires Valid()
      ensures r == Lookup(container.docs, CodePath, CodeKey(Normalize(code)))
    {
      var n := Normalize(code);
      r := container.ReadItem(n, n);
    }

    /**
     * `validate_and_use_preview_code`: an unknown code and a used code are refused with
     * their error codes and change nothing; an unused code is marked used by the caller.
     * `t1` and `t2` are the clock reads for `used_at` and `updated_at`.
     */
    method ValidateAndUse(code: string, userId: string, t1: Instant, t2: Instant) returns (r: Validation)
      requires Valid()
      modifies container
      ensures Valid()
      ensures var key := CodeKey(Normalize(code));
        var stored := Lookup(old(container.docs), CodePath, key);
        && (stored.None? ==> r == Validation(false, InvalidCodeMessage, Some("INVALID_CODE")) && container.docs == old(container.docs))
        && (stored.Some? && IsUsed(stored.value) ==>
              r == Validation(false, UsedCodeMessage, Some("CODE_ALREADY_USED")) && container.docs == old(container.docs))
        && (stored.Some? && !IsUsed(stored.value) ==>
              && r == Validation(true, ValidCodeMessage, None)
              && Lookup(container.docs, CodePath, key) == Some(Redeemed(stored.value, userId, t1, t2))
              && (forall k :: k != key ==> Lookup(container.docs, CodePath, k) == Lookup(old(container.docs), CodePath, k)))
    {
      // `get_preview_code` normalises the normalised code again, which changes nothing
      // (`NormalizeIdempotent`), so looking up `code` finds the same document.
      var found := Get(code);
      if found.None? {
        r := Validation(false, InvalidCodeMessage, Some("INVALID_CODE"));
        return;
      }
      if IsUsed(found.value) {
        r := Validation(false, UsedCodeMessage, Some("CODE_ALREADY_USED"));
        return;
      }
      r := Redeem(Normalize(code), found.value, userId, t1, t2);
    }

    /** `validate_and_use_preview_code` once the code is normalised. */
    /** The replacement that marks a stored, unused code used; a store error is reported as a server error. */
    method Redeem(n: string, stored: Record, userId: string, t1: Instant, t2: Instant) returns (r: Validation)
      requires Valid()
      requires Lookup(container.docs, CodePath, CodeKey(n)) == Some(stored)
      modifies container
      ensures Valid()
      ensures r == Validation(true, ValidCodeMessage, None)
      ensures Lookup(container.docs, CodePath, CodeKey(n)) == Some(Redeemed(stored, userId, t1, t2))
      ensures forall k :: k != CodeKey(n) ==> Lookup(container.docs, CodePath, k) == Lookup(old(container.docs), CodePath, k)
    {
      var body := Redeemed(stored, userId, t1, t2);
      RedeemedFields(stored, userId, t1, t2);
      assert SerialisableRecord(body);
      var res := container.ReplaceItem(n, body);
      if res.Done? {
        r := Validation(true, ValidCodeMessage, None);
      } else {
        r := Validation(false, ServerErrorMessage, Some("SERVER_ERROR"));
      }
    }

    /** `get_all_preview_codes`: every preview-code document, in store order. */
    method GetAll() returns (r: seq<Record>)
      ensures r == Filter(container.docs, IsPreview())
      ensures forall x :: x in r <==> x in container.docs && Values.Get(x, "document_type") == Str(PreviewType)
    {
      r := container.QueryItems(IsPreview(), Unordered);
      SortByUnordered(Filter(container.docs, IsPreview()));
    }

    /** `get_preview_code_stats`. */
    method GetStats() returns (r: Stats)
      ensures r == ComputeStats(Filter(container.docs, IsPreview()))
    {
      var all := GetAll();
      r := ComputeStats(all);
    }

    /**
     * `bulk_create_preview_codes`: creates the codes one by one, skipping those that
     * fail, and returns the created ones in input order.
     */
    method BulkCreate(codes: seq<string>, userId: string) returns (created: seq<Record>)
      requires Valid()
      modifies container
      ensures Valid()
      ensures container.docs == old(container.docs) + created
      ensures IsSubsequence(created, NewCodes(codes, userId))
      ensures forall c :: c in codes ==> Lookup(container.docs, CodePath, CodeKey(c)).Some?
    {
      created := [];
      var i := 0;
      while i < |codes|
        invariant 0 <= i <= |codes|
        invariant Valid()
        invariant container.docs == old(container.docs) + created
        invariant IsSubsequence(created, NewCodes(codes[..i], userId))
        invariant forall j :: 0 <= j < i ==> Lookup(container.docs, CodePath, CodeKey(codes[j])).Some?
      {
        created := CreateNext(codes, i, userId, old(container.docs), created);
        i := i + 1;
      }
      assert codes[..i] == codes;
      forall c | c in codes
        ensures Lookup(container.docs, CodePath, CodeKey(c)).Some?
      {
        var j :| 0 <= j < |codes| && codes[j] == c;
      }
    }

    /** One turn of the `bulk_create_preview_codes` loop: creates `codes[i]`, or skips it when creation fails. */
    method CreateNext(codes: seq<string>, i: nat, userId: string, ghost base: seq<Record>, created: seq<Record>)
      returns (next: seq<Record>)
      requires Valid() && i < |codes|
      requires container.docs == base + created
      requires IsSubsequence(created, NewCodes(codes[..i], userId))
      requires forall j :: 0 <= j < i ==> Lookup(container.docs, CodePath, CodeKey(codes[j])).Some?
      modifies container
      ensures Valid()
      ensures container.docs == base + next
      ensures IsSubsequence(next, NewCodes(codes[..i + 1], userId))
      ensures forall j :: 0 <= j <= i ==> Lookup(container.docs, CodePath, CodeKey(codes[j])).Some?
    {
      ghost var item := NewCode(codes[i], userId);
      ghost var done := NewCodes(codes[..i], userId);
      NewCodesSnoc(codes, i, userId);
      SubsequenceExtend(created, done, item);
      ghost var before := container.docs;
      var res := Create(codes[i], userId);
      StillPresent(before, container.docs, codes, i);
      if res.Ok? {
        next := created + [res.value];
        AppendAssoc(base, created, res.value);
        assert IsSubsequence(next, done + [item]);
      } else {
        next := created;
        assert IsSubsequence(next, done + [item]);
      }
    }

    /**
     * `reset_preview_codes`: `"delete_all"` deletes every preview code; any other reset
     * type releases every used code. `clock(c)` is the clock read for the `updated_at` of
     * code `c`.
     */
    method Reset(resetType: string, clock: string -> Instant) returns (r: ResetReport)
      requires Valid()
      modifies container
      ensures Valid()
      ensures r.success
      ensures var all := Filter(old(container.docs), IsPreview());
        resetType == "delete_all" ==>
          && r.affectedCount == |old(container.docs)| - |container.docs|
          && (forall x :: x in all ==> Lookup(container.docs, CodePath, CodeKey(CodeOf(x))).None?)
          && Removed(old(container.docs), container.docs, CodePath, CodeKeys(all))
      ensures resetType != "delete_all" ==>
        && r.affectedCount == CountResettable(Filter(old(container.docs), IsPreview()))
        && forall k :: Lookup(container.docs, CodePath, k) == ResetDoc(Lookup(old(container.docs), CodePath, k), clock)
    {
      var all := GetAll();
      var affected: nat;
      if resetType == "delete_all" {
        affected := DeleteAll(all);
      } else {
        affected := ReleaseAll(all, clock);
      }
      r := ResetReport(true, affected);
    }

    /** The `delete_all` loop: deletes each code from its own partition, counting the deletions. */
    method DeleteAll(all: seq<Record>) returns (affected: nat)
      requires Valid()
      modifies container
      ensures Valid()
      ensures affected == |old(container.docs)| - |container.docs|
      ensures forall x :: x in all ==> Lookup(container.docs, CodePath, CodeKey(CodeOf(x))).None?
      ensures Removed(old(container.docs), container.docs, CodePath, CodeKeys(all))
    {
      affected := 0;
      var i := 0;
      while i < |all|
        invariant 0 <= i <= |all|
        invariant Valid()
        invariant affected + |container.docs| == |old(container.docs)|
        invariant Removed(old(container.docs), container.docs, CodePath, CodeKeys(all[..i]))
      {
        var found := DeleteNext(all, i, old(container.docs));
        if found {
          affected := affected + 1;
        }
        i := i + 1;
      }
      assert all[..i] == all;
      forall x | x in all
        ensures Lookup(container.docs, CodePath, CodeKey(CodeOf(x))).None?
      {
        CodeKeysMember(all, x);
      }
    }

    /** One turn of the `delete_all` loop: the `i`-th code is deleted from its own partition. */
    method DeleteNext(all: seq<Record>, i: nat, ghost base: seq<Record>) returns (found: bool)
      requires Valid() && i < |all|
      requires Removed(base, container.docs, CodePath, CodeKeys(all[..i]))
      modifies container
      ensures Valid()
      ensures Removed(base, container.docs, CodePath, CodeKeys(all[..i + 1]))
      ensures |container.docs| == |old(container.docs)| - (if found then 1 else 0)
    {
      var c := CodeOf(all[i]);
      assert all[..i + 1][..i] == all[..i];
      ghost var before := container.docs;
      found := container.DeleteItem(c, c);
      RemoveStep(base, before, container.docs, CodePath, CodeKeys(all[..i]), CodeKey(c));
    }

    /** The `mark_unused` loop: releases each used code, counting the replacements that succeed. */
    method ReleaseAll(all: seq<Record>, clock: string -> Instant) returns (affected: nat)
      requires Valid()
      requires all == Filter(container.docs, IsPreview())
      modifies container
      ensures Valid()
      ensures affected == CountResettable(all)
      ensures forall k :: Lookup(container.docs, CodePath, k) == ResetDoc(Lookup(old(container.docs), CodePath, k), clock)
    {
      affected := 0;
      var i := 0;
      while i < |all|
        invariant 0 <= i <= |all|
        invariant Valid()
        invariant affected == CountResettable(all[..i])
        invariant ResetUpTo(old(container.docs), container.docs, all[..i], clock)
      {
        affected := ReleaseNext(all, i, clock, old(container.docs), affected);
        i := i + 1;
      }
      assert all[..i] == all;
      ResetComplete(old(container.docs), container.docs, all, clock);
    }

    /** One turn of the `mark_unused` loop, on `all[i]`. */
    method ReleaseNext(all: seq<Record>, i: nat, clock: string -> Instant, ghost base: seq<Record>, affected: nat)
      returns (next: nat)
      requires Valid() && i < |all|
      requires all == Filter(base, IsPreview()) && WellFormed(base, CodePath)
      requires forall d :: d in base ==> SerialisableRecord(d)
      requires affected == CountResettable(all[..i])
      requires ResetUpTo(base, container.docs, all[..i], clock)
      modifies container
      ensures Valid()
      ensures next == CountResettable(all[..i + 1])
      ensures ResetUpTo(base, container.docs, all[..i + 1], clock)
    {
      CountResettableSnoc(all, i);
      var x := all[i];
      assert x in all;
      LookupMember(base, CodePath, x);
      ghost var before := container.docs;
      next := affected;
      if IsUsed(x) {
        assert SerialisableRecord(x);
        ReleasedFields(x, clock(CodeOf(x)));
        var done := ReleaseOne(x, clock(CodeOf(x)));
        if done {
          next := affected + 1;
        }
      }
      ResetStep(base, before, container.docs, all, i, clock);
    }

    /** One replacement of the `mark_unused` loop: succeeds exactly for a code stored under its own code as id. */
    method ReleaseOne(x: Record, now: Instant) returns (done: bool)
      requires Valid() && IsUsed(x)
      requires KeyOf(x, CodePath).Some? && Lookup(container.docs, CodePath, KeyOf(x, CodePath).value).Some?
      modifies container
      ensures Valid()
      ensures done == (Resettable(x) && SerialisableRecord(Released(x, now)))
      ensures done ==> forall k :: Lookup(container.docs, CodePath, k)
                                  == if k == KeyOf(x, CodePath).value then Some(Released(x, now)) else Lookup(old(container.docs), CodePath, k)
      ensures !done ==> container.docs == old(container.docs)
    {
      ReleasedFields(x, now);
      var res := container.ReplaceItem(CodeOf(x), Released(x, now));
      done := res.Done?;
    }
  }
}
