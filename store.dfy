/**
 * The document container the repositories talk to, treated as an in-memory table.
 *
 * A container holds documents (records). Each document is identified by its `id`
 * together with its partition key, the value of the container's partition field
 * (`user_id` for most containers); that pair is unique in the container. Documents
 * are kept in the order they were created, which is the order a query without
 * `ORDER BY` returns them in. `Lookup` gives the key-to-document map view.
 */
module Store {
  import opened Wrappers
  import opened Values
  import opened Ordering

  datatype DocKey = DocKey(id: string, partition: string)

  /**
   * The store failures the repositories tell apart. `Unserialisable` is the `TypeError`
   * the client raises when the request body holds a `datetime`, before any request is sent.
   */
  datatype StoreError = NotFound | Conflict | BadRequest | Unserialisable

  datatype StoreResult<+T> = Done(value: T) | Failed(error: StoreError)

  /** The key of a document: its string `id` and the string value of the partition field. */
  function KeyOf(r: Record, path: string): Option<DocKey>
  {
    match (Get(r, "id"), Get(r, path))
    case (Str(id), Str(pk)) => Some(DocKey(id, pk))
    case _ => None
  }

  /** Every stored document has a key, and no two share one. */
  ghost predicate WellFormed(docs: seq<Record>, path: string)
  {
    && (forall i :: 0 <= i < |docs| ==> KeyOf(docs[i], path).Some?)
    && (forall i, j :: 0 <= i < j < |docs| ==> KeyOf(docs[i], path) != KeyOf(docs[j], path))
  }

  /** Position of the document stored under `k`. */
  function IndexOf(docs: seq<Record>, path: string, k: DocKey): (r: Option<nat>)
    ensures r.Some? ==> r.value < |docs| && KeyOf(docs[r.value], path) == Some(k)
    ensures r.None? ==> forall i :: 0 <= i < |docs| ==> KeyOf(docs[i], path) != Some(k)
  {
    if docs == [] then None
    else if KeyOf(docs[0], path) == Some(k) then Some(0)
    else match IndexOf(docs[1..], path, k)
      case None => None
      case Some(i) => Some(i + 1)
  }

  /** The document stored under `k`, if any (the table as a map). */
  function Lookup(docs: seq<Record>, path: string, k: DocKey): (r: Option<Record>)
    ensures r.Some? ==> r.value in docs && KeyOf(r.value, path) == Some(k)
    ensures r.None? ==> forall d :: d in docs ==> KeyOf(d, path) != Some(k)
  {
    match IndexOf(docs, path, k)
    case None => None
    case Some(i) => Some(docs[i])
  }

  /** In a well-formed table, a document is found under its own key. */
  lemma LookupMember(docs: seq<Record>, path: string, d: Record)
    requires WellFormed(docs, path) && d in docs
    ensures Lookup(docs, path, KeyOf(d, path).value) == Some(d)
  {
    var i :| 0 <= i < |docs| && docs[i] == d;
    var j := IndexOf(docs, path, KeyOf(d, path).value).value;
    assert i == j;
  }

  lemma AppendLookup(docs: seq<Record>, path: string, d: Record, k: DocKey)
    requires WellFormed(docs, path) && KeyOf(d, path).Some?
    requires Lookup(docs, path, KeyOf(d, path).value).None?
    ensures WellFormed(docs + [d], path)
    ensures Lookup(docs + [d], path, k) == if KeyOf(d, path) == Some(k) then Some(d) else Lookup(docs, path, k)
  {
    var nd := docs + [d];
    assert forall i :: 0 <= i < |docs| ==> nd[i] == docs[i];
    assert forall i :: 0 <= i < |docs| ==> docs[i] in docs;
    if KeyOf(d, path) != Some(k) {
      match Lookup(docs, path, k)
      case None =>
      case Some(x) => LookupMember(nd, path, x);
    } else {
      assert nd[|docs|] == d;
      LookupMember(nd, path, d);
    }
  }

  lemma ReplaceLookup(docs: seq<Record>, path: string, i: nat, d: Record, k: DocKey)
    requires WellFormed(docs, path) && i < |docs| && KeyOf(d, path) == KeyOf(docs[i], path)
    ensures WellFormed(docs[i := d], path)
    ensures Lookup(docs[i := d], path, k) == if KeyOf(d, path) == Some(k) then Some(d) else Lookup(docs, path, k)
  {
    var nd := docs[i := d];
    assert nd[i] == d;
    if KeyOf(d, path) == Some(k) {
      LookupMember(nd, path, d);
    } else {
      match Lookup(docs, path, k)
      case None =>
      case Some(x) =>
        LookupMember(docs, path, x);
        var j :| 0 <= j < |docs| && docs[j] == x;
        assert j != i && nd[j] == x;
        LookupMember(nd, path, x);
    }
  }

  lemma RemoveLookup(docs: seq<Record>, path: string, i: nat, k: DocKey)
    requires WellFormed(docs, path) && i < |docs|
    ensures WellFormed(docs[..i] + docs[i + 1..], path)
    ensures Lookup(docs[..i] + docs[i + 1..], path, k) == if KeyOf(docs[i], path) == Some(k) then None else Lookup(docs, path, k)
  {
    var nd := docs[..i] + docs[i + 1..];
    assert forall j :: 0 <= j < |nd| ==> nd[j] == if j < i then docs[j] else docs[j + 1];
    if KeyOf(docs[i], path) != Some(k) {
      match Lookup(docs, path, k)
      case None =>
      case Some(x) =>
        var j :| 0 <= j < |docs| && docs[j] == x;
        assert j != i;
        assert x in nd by {
          if j < i { assert nd[j] == x; } else { assert nd[j - 1] == x; }
        }
        LookupMember(nd, path, x);
    }
  }

  /** Two stored documents under the same key are the same document. */
  lemma KeysDistinguish(docs: seq<Record>, path: string, x: Record, y: Record)
    requires WellFormed(docs, path) && x in docs && y in docs && KeyOf(x, path) == KeyOf(y, path)
    ensures x == y
  {
    LookupMember(docs, path, x);
    LookupMember(docs, path, y);
  }

  /** A well-formed table holds each document at most once. */
  lemma {:induction false} StoredOnce(docs: seq<Record>, path: string, x: Record)
    requires WellFormed(docs, path)
    ensures multiset(docs)[x] <= 1
  {
    if docs != [] {
      var init := docs[..|docs| - 1];
      assert docs == init + [docs[|docs| - 1]];
      assert WellFormed(init, path) by {
        assert forall i :: 0 <= i < |init| ==> init[i] == docs[i];
      }
      StoredOnce(init, path, x);
      if docs[|docs| - 1] == x {
        assert x !in init by {
          forall i | 0 <= i < |init|
            ensures init[i] != x
          {
            assert init[i] == docs[i];
          }
        }
      }
    }
  }

  /**
   * The documents of any selection from a well-formed table (a query result, a prefix
   * of one) have pairwise different keys.
   */
  lemma DistinctKeys(docs: seq<Record>, path: string, s: seq<Record>)
    requires WellFormed(docs, path) && multiset(s) <= multiset(docs)
    ensures forall i, j :: 0 <= i < j < |s| ==> KeyOf(s[i], path) != KeyOf(s[j], path)
  {
    forall i, j | 0 <= i < j < |s|
      ensures KeyOf(s[i], path) != KeyOf(s[j], path)
    {
      if KeyOf(s[i], path) == KeyOf(s[j], path) {
        assert s[i] in multiset(s) && s[j] in multiset(s);
        KeysDistinguish(docs, path, s[i], s[j]);
        assert s == s[..j] + s[j..];
        assert s[i] in s[..j] && s[j] in s[j..];
        assert multiset(s)[s[i]] == multiset(s[..j])[s[i]] + multiset(s[j..])[s[i]];
        StoredOnce(docs, path, s[i]);
      }
    }
  }

  /** `docs` is `base` without the documents under the keys `gone`, and nothing else changed. */
  ghost predicate Removed(base: seq<Record>, docs: seq<Record>, path: string, gone: set<DocKey>)
  {
    forall k :: Lookup(docs, path, k) == if k in gone then None else Lookup(base, path, k)
  }

  lemma RemoveStep(base: seq<Record>, before: seq<Record>, after: seq<Record>, path: string, gone: set<DocKey>, key: DocKey)
    requires Removed(base, before, path, gone)
    requires forall k :: Lookup(after, path, k) == if k == key then None else Lookup(before, path, k)
    ensures Removed(base, after, path, gone + {key})
  {
  }

  lemma RemovedThen(a: seq<Record>, b: seq<Record>, c: seq<Record>, path: string, g1: set<DocKey>, g2: set<DocKey>)
    requires Removed(a, b, path, g1) && Removed(b, c, path, g2)
    ensures Removed(a, c, path, g1 + g2)
  {
  }

  /** `docs` is `base` with `body` stored under `key`, and nothing else changed. */
  ghost predicate Written(base: seq<Record>, docs: seq<Record>, path: string, key: DocKey, body: Record)
  {
    forall k :: Lookup(docs, path, k) == if k == key then Some(body) else Lookup(base, path, k)
  }

  /** Documents whose partition field holds `pk` (a query scoped by `partition_key`). */
  predicate InPartition(r: Record, path: string, pk: string)
  {
    Get(r, path) == Str(pk)
  }

  class Container {
    /** The partition key path: the field whose value partitions the documents. */
    const path: string
    var docs: seq<Record>

    /** Keys are unique, and every stored document is plain JSON. */
    ghost predicate Valid()
      reads this
    {
      WellFormed(docs, path) && forall d :: d in docs ==> SerialisableRecord(d)
    }

    constructor (path: string)
      ensures this.path == path && docs == [] && Valid()
    {
      this.path := path;
      docs := [];
    }

    /** `create_item`: inserts a document with a new key. */
    method CreateItem(body: Record) returns (r: StoreResult<Record>)
      requires Valid()
      modifies this
      ensures Valid()
      ensures r.Done? <==> SerialisableRecord(body) && KeyOf(body, path).Some? && Lookup(old(docs), path, KeyOf(body, path).value).None?
      ensures r == Failed(Unserialisable) <==> !SerialisableRecord(body)
      ensures r.Done? ==> r.value == body && docs == old(docs) + [body]
      ensures r.Done? ==> forall k :: Lookup(docs, path, k) == if KeyOf(body, path) == Some(k) then Some(body) else Lookup(old(docs), path, k)
      ensures r.Failed? ==> docs == old(docs) && r.error != NotFound
    {
      if !SerialisableRecord(body) {
        r := Failed(Unserialisable);
        return;
      }
      match KeyOf(body, path)
      case None =>
        r := Failed(BadRequest);
      case Some(k) =>
        if Lookup(docs, path, k).Some? {
          r := Failed(Conflict);
        } else {
          forall k' ensures Lookup(docs + [body], path, k') == if KeyOf(body, path) == Some(k') then Some(body) else Lookup(docs, path, k') {
            AppendLookup(docs, path, body, k');
          }
          AppendLookup(docs, path, body, k);
          docs := docs + [body];
          r := Done(body);
        }
    }

    /** `read_item`: the document under (id, partition key), `None` where the store reports not found. */
    method ReadItem(id: string, pk: string) returns (r: Option<Record>)
      ensures r == Lookup(docs, path, DocKey(id, pk))
    {
      r := Lookup(docs, path, DocKey(id, pk));
    }

    /**
     * `replace_item(item=id, body=...)`: the partition is taken from the body; the body's
     * id must be `id`, and the document must exist in that partition.
     */
    method ReplaceItem(id: string, body: Record) returns (r: StoreResult<Record>)
      requires Valid()
      modifies this
      ensures Valid()
      ensures r.Done? <==> (SerialisableRecord(body) && KeyOf(body, path).Some? && KeyOf(body, path).value.id == id
                            && Lookup(old(docs), path, KeyOf(body, path).value).Some?)
      ensures r.Done? ==> r.value == body && |docs| == |old(docs)|
      ensures r.Done? ==> forall k :: Lookup(docs, path, k) == if KeyOf(body, path) == Some(k) then Some(body) else Lookup(old(docs), path, k)
      ensures r.Failed? ==> docs == old(docs)
      ensures r == Failed(NotFound) <==> (SerialisableRecord(body) && KeyOf(body, path).Some? && KeyOf(body, path).value.id == id
                                          && Lookup(old(docs), path, KeyOf(body, path).value).None?)
      ensures r == Failed(Unserialisable) <==> !SerialisableRecord(body)
    {
      if !SerialisableRecord(body) {
        r := Failed(Unserialisable);
        return;
      }
      match KeyOf(body, path)
      case None =>
        r := Failed(BadRequest);
      case Some(k) =>
        if k.id != id {
          r := Failed(BadRequest);
        } else {
          match IndexOf(docs, path, k)
          case None =>
            r := Failed(NotFound);
          case Some(i) =>
            forall k' ensures Lookup(docs[i := body], path, k') == if KeyOf(body, path) == Some(k') then Some(body) else Lookup(docs, path, k') {
              ReplaceLookup(docs, path, i, body, k');
            }
            ReplaceLookup(docs, path, i, body, k);
            docs := docs[i := body];
            r := Done(body);
        }
    }

    /** `delete_item`: `false` where the store reports not found. */
    method DeleteItem(id: string, pk: string) returns (found: bool)
      requires Valid()
      modifies this
      ensures Valid()
      ensures found == Lookup(old(docs), path, DocKey(id, pk)).Some?
      ensures !found ==> docs == old(docs)
      ensures found ==> |docs| == |old(docs)| - 1
      ensures forall k :: Lookup(docs, path, k) == if k == DocKey(id, pk) then None else Lookup(old(docs), path, k)
      ensures multiset(docs) <= multiset(old(docs))
      ensures found ==> exists i :: (&& 0 <= i < |old(docs)| && KeyOf(old(docs)[i], path) == Some(DocKey(id, pk))
                                     && docs == old(docs)[..i] + old(docs)[i + 1..])
    {
      match IndexOf(docs, path, DocKey(id, pk))
      case None =>
        found := false;
      case Some(i) =>
        forall k ensures Lookup(docs[..i] + docs[i + 1..], path, k) == if k == DocKey(id, pk) then None else Lookup(docs, path, k) {
          RemoveLookup(docs, path, i, k);
        }
        RemoveLookup(docs, path, i, DocKey(id, pk));
        assert docs == docs[..i] + [docs[i]] + docs[i + 1..];
        docs := docs[..i] + docs[i + 1..];
        found := true;
    }

    /** `query_items`: the documents satisfying `p`, ordered by `o`. */
    method QueryItems(p: Record -> bool, o: Order) returns (r: seq<Record>)
      ensures r == Query(docs, p, o)
      ensures forall x :: x in r <==> x in docs && p(x)
      ensures Sorted(r, o)
    {
      r := Query(docs, p, o);
    }
  }
}
