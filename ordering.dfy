/**
 * What a store query does with the matching documents: the `WHERE` clause keeps
 * documents in store order, the `ORDER BY` clause sorts them by the string value
 * of one field, ascending or descending.
 */
module Ordering {
  import opened Values
  import opened Strings

  datatype Order = Unordered | Asc(field: string) | Desc(field: string)

  /** The value `ORDER BY field` compares: the field's string, or "" when it has none. */
  function SortKey(r: Record, field: string): string
  {
    match Get(r, field)
    case Str(s) => s
    case _ => []
  }

  /** `a` may come before `b` in a result ordered by `o`. */
  predicate InOrder(a: Record, b: Record, o: Order)
  {
    match o
    case Unordered => true
    case Asc(f) => !LexLess(SortKey(b, f), SortKey(a, f))
    case Desc(f) => !LexLess(SortKey(a, f), SortKey(b, f))
  }

  predicate Sorted(s: seq<Record>, o: Order)
  {
    forall i, j :: 0 <= i < j < |s| ==> InOrder(s[i], s[j], o)
  }

  lemma InOrderTotal(a: Record, b: Record, o: Order)
    ensures InOrder(a, b, o) || InOrder(b, a, o)
  {
    match o
    case Unordered =>
    case Asc(f) => LexLessAsymmetric(SortKey(a, f), SortKey(b, f));
    case Desc(f) => LexLessAsymmetric(SortKey(a, f), SortKey(b, f));
  }

  lemma InOrderTransitive(a: Record, b: Record, c: Record, o: Order)
    requires InOrder(a, b, o) && InOrder(b, c, o)
    ensures InOrder(a, c, o)
  {
    match o
    case Unordered =>
    case Asc(f) =>
      var ka, kb, kc := SortKey(a, f), SortKey(b, f), SortKey(c, f);
      LexLessTotal(ka, kb);
      LexLessTotal(kb, kc);
      if ka != kb && kb != kc { LexLessTransitive(ka, kb, kc); }
      LexLessAsymmetric(ka, kc);
      LexLessIrreflexive(ka);
    case Desc(f) =>
      var ka, kb, kc := SortKey(a, f), SortKey(b, f), SortKey(c, f);
      LexLessTotal(ka, kb);
      LexLessTotal(kb, kc);
      if ka != kb && kb != kc { LexLessTransitive(kc, kb, ka); }
      LexLessAsymmetric(ka, kc);
      LexLessIrreflexive(ka);
  }

  /** Inserts `x` before the first element it may precede (keeps equal keys in order). */
  function Insert(x: Record, s: seq<Record>, o: Order): (r: seq<Record>)
    ensures multiset(r) == multiset(s) + multiset{x}
  {
    if s == [] || InOrder(x, s[0], o) then [x] + s
    else
      assert s == [s[0]] + s[1..];
      [s[0]] + Insert(x, s[1..], o)
  }

  lemma {:induction false} InsertSorted(x: Record, s: seq<Record>, o: Order)
    requires Sorted(s, o)
    ensures Sorted(Insert(x, s, o), o)
  {
    if s == [] || InOrder(x, s[0], o) {
      forall j | 0 <= j < |s| ensures InOrder(x, s[j], o) {
        if j > 0 { InOrderTransitive(x, s[0], s[j], o); }
      }
    } else {
      InsertSorted(x, s[1..], o);
      InsertBehindHead(x, s, o);
    }
  }

  /** When `x` goes behind the head, the head precedes everything inserted after it. */
  lemma InsertBehindHead(x: Record, s: seq<Record>, o: Order)
    requires Sorted(s, o) && s != [] && !InOrder(x, s[0], o)
    ensures forall j :: 0 <= j < |Insert(x, s[1..], o)| ==> InOrder(s[0], Insert(x, s[1..], o)[j], o)
  {
    var rest := Insert(x, s[1..], o);
    InOrderTotal(x, s[0], o);
    forall j | 0 <= j < |rest| ensures InOrder(s[0], rest[j], o) {
      assert rest[j] in multiset(rest);
      if rest[j] != x {
        assert rest[j] in multiset(s[1..]);
        var k :| 0 <= k < |s[1..]| && s[1..][k] == rest[j];
        assert s[k + 1] == rest[j];
      }
    }
  }

  /** The result of `ORDER BY`: a sorted permutation of `s` (insertion sort). */
  function SortBy(s: seq<Record>, o: Order): (r: seq<Record>)
    ensures multiset(r) == multiset(s)
    ensures Sorted(r, o)
  {
    if s == [] then []
    else
      assert s == [s[0]] + s[1..];
      InsertSorted(s[0], SortBy(s[1..], o), o);
      Insert(s[0], SortBy(s[1..], o), o)
  }

  /** A query without `ORDER BY` keeps the store's order. */
  lemma {:induction false} SortByUnordered(s: seq<Record>)
    ensures SortBy(s, Unordered) == s
  {
    if s != [] {
      SortByUnordered(s[1..]);
      assert s == [s[0]] + s[1..];
    }
  }

  /** The documents satisfying a `WHERE` clause, in store order. */
  function Filter(s: seq<Record>, p: Record -> bool): (r: seq<Record>)
    ensures |r| <= |s|
    ensures forall x :: x in r <==> x in s && p(x)
    ensures multiset(r) <= multiset(s)
  {
    if s == [] then []
    else
      assert s == [s[0]] + s[1..];
      if p(s[0]) then [s[0]] + Filter(s[1..], p)
      else Filter(s[1..], p)
  }

  /** Removing a document the `WHERE` clause rejects does not change the selection. */
  lemma {:induction false} FilterSkips(s: seq<Record>, i: nat, p: Record -> bool)
    requires i < |s| && !p(s[i])
    ensures Filter(s[..i] + s[i + 1..], p) == Filter(s, p)
  {
    assert s == [s[0]] + s[1..];
    if i == 0 {
      assert s[..0] + s[1..] == s[1..];
    } else {
      var t := s[1..];
      assert s[..i] + s[i + 1..] == [s[0]] + (t[..i - 1] + t[i..]);
      FilterSkips(t, i - 1, p);
      assert t[..i - 1] + t[i - 1 + 1..] == t[..i - 1] + t[i..];
    }
  }

  /** The `WHERE` clause keeps every document exactly when all satisfy it. */
  lemma {:induction false} FilterKeepsAll(s: seq<Record>, p: Record -> bool)
    ensures |Filter(s, p)| == |s| <==> forall x :: x in s ==> p(x)
  {
    if s != [] {
      FilterKeepsAll(s[1..], p);
      assert s == [s[0]] + s[1..];
      assert forall x :: x in s <==> x == s[0] || x in s[1..];
    }
  }

  /** The `WHERE` clause keeps no document exactly when none satisfies it. */
  lemma {:induction false} FilterKeepsNone(s: seq<Record>, p: Record -> bool)
    ensures Filter(s, p) == [] <==> forall x :: x in s ==> !p(x)
  {
    if s != [] {
      FilterKeepsNone(s[1..], p);
      assert s == [s[0]] + s[1..];
      assert forall x :: x in s <==> x == s[0] || x in s[1..];
    }
  }

  /** `SELECT * ... WHERE p ORDER BY o`. */
  function Query(docs: seq<Record>, p: Record -> bool, o: Order): (r: seq<Record>)
    ensures forall x :: x in r <==> x in docs && p(x)
    ensures Sorted(r, o)
    ensures multiset(r) == multiset(Filter(docs, p))
  {
    var r := SortBy(Filter(docs, p), o);
    assert forall x :: x in r <==> x in multiset(r);
    assert forall x :: x in Filter(docs, p) <==> x in multiset(Filter(docs, p));
    r
  }

  /** `a` is `b` with some elements left out, the rest in the same order. */
  predicate IsSubsequence<T(==)>(a: seq<T>, b: seq<T>)
    decreases |b|
  {
    if b == [] then a == []
    else
      || (a != [] && a[|a| - 1] == b[|b| - 1] && IsSubsequence(a[..|a| - 1], b[..|b| - 1]))
      || IsSubsequence(a, b[..|b| - 1])
  }

  lemma {:induction false} SubsequenceMembers<T>(a: seq<T>, b: seq<T>)
    requires IsSubsequence(a, b)
    ensures |a| <= |b| && forall x :: x in a ==> x in b
    decreases |b|
  {
    if b != [] {
      if a != [] && a[|a| - 1] == b[|b| - 1] && IsSubsequence(a[..|a| - 1], b[..|b| - 1]) {
        SubsequenceMembers(a[..|a| - 1], b[..|b| - 1]);
        assert a == a[..|a| - 1] + [a[|a| - 1]];
        assert b == b[..|b| - 1] + [b[|b| - 1]];
      } else {
        SubsequenceMembers(a, b[..|b| - 1]);
        assert b == b[..|b| - 1] + [b[|b| - 1]];
      }
    }
  }

  lemma SubsequenceExtend<T>(a: seq<T>, b: seq<T>, x: T)
    requires IsSubsequence(a, b)
    ensures IsSubsequence(a + [x], b + [x]) && IsSubsequence(a, b + [x])
  {
    assert (a + [x])[..|a|] == a;
    assert (b + [x])[..|b|] == b;
  }

  /** Putting the same element in front of both keeps a subsequence, and so does putting it in front of `b` alone. */
  lemma {:induction false} SubsequenceCons<T>(a: seq<T>, b: seq<T>, x: T)
    requires IsSubsequence(a, b)
    ensures IsSubsequence([x] + a, [x] + b) && IsSubsequence(a, [x] + b)
    decreases |b|
  {
    if b == [] {
      assert ([x] + a)[..|a|] == a;
    } else {
      var xb := [x] + b;
      assert xb[..|xb| - 1] == [x] + b[..|b| - 1];
      assert xb[|xb| - 1] == b[|b| - 1];
      if a != [] && a[|a| - 1] == b[|b| - 1] && IsSubsequence(a[..|a| - 1], b[..|b| - 1]) {
        SubsequenceCons(a[..|a| - 1], b[..|b| - 1], x);
        var xa := [x] + a;
        assert xa[..|xa| - 1] == [x] + a[..|a| - 1];
      } else {
        SubsequenceCons(a, b[..|b| - 1], x);
      }
    }
  }
}
