/**
 * The Python and store string operations the repositories rely on: `strip`,
 * `upper`, substring containment and lexicographic comparison.
 */
module Strings {

  // ---------------------------------------------------------------------------
  // Strings
  // ---------------------------------------------------------------------------

  /**
   * The characters Python's `str.strip()` removes, restricted to ASCII: tab, line feed,
   * vertical tab, form feed, carriage return, the four separators 0x1C-0x1F and space.
   */
  predicate IsSpace(c: char)
  {
    c == ' ' || '\t' <= c <= '\r' || '\U{001C}' <= c <= '\U{001F}'
  }

  /** Every character of `s` is white space. */
  predicate AllSpace(s: string)
  {
    forall i :: 0 <= i < |s| ==> IsSpace(s[i])
  }

  /** `r` is the slice of `s` starting at `i`, and only white space surrounds it in `s`. */
  predicate SpaceAround(s: string, r: string, i: int)
  {
    0 <= i <= |s| - |r| && r == s[i..i + |r|] && AllSpace(s[..i]) && AllSpace(s[i + |r|..])
  }

  function TrimLeft(s: string): (r: string)
    ensures |r| <= |s|
    ensures r == s[|s| - |r|..]
    ensures AllSpace(s[..|s| - |r|])
    ensures r != [] ==> !IsSpace(r[0])
  {
    if s != [] && IsSpace(s[0]) then
      var r := TrimLeft(s[1..]);
      assert s[..|s| - |r|] == [s[0]] + s[1..][..|s| - 1 - |r|];
      r
    else s
  }

  function TrimRight(s: string): (r: string)
    ensures |r| <= |s|
    ensures r == s[..|r|]
    ensures AllSpace(s[|r|..])
    ensures r != [] ==> !IsSpace(r[|r| - 1])
  {
    if s != [] && IsSpace(s[|s| - 1]) then
      var r := TrimRight(s[..|s| - 1]);
      assert s[|r|..] == s[..|s| - 1][|r|..] + [s[|s| - 1]];
      r
    else s
  }

  /**
   * Python's `s.strip()`: the slice of `s` left once the white space before and after it
   * is removed, and which neither starts nor ends with white space.
   */
  function Strip(s: string): (r: string)
    ensures |r| <= |s|
    ensures exists i :: SpaceAround(s, r, i)
    ensures r != [] ==> !IsSpace(r[0]) && !IsSpace(r[|r| - 1])
  {
    var l := TrimLeft(s);
    var r := TrimRight(l);
    SliceOfSuffix(s, l, r);
    r
  }

  /** The step of `Strip`: a prefix of a suffix of `s` is a slice of `s` with the same surroundings. */
  lemma SliceOfSuffix(s: string, l: string, r: string)
    requires |l| <= |s| && l == s[|s| - |l|..] && AllSpace(s[..|s| - |l|])
    requires |r| <= |l| && r == l[..|r|] && AllSpace(l[|r|..])
    requires l != [] ==> !IsSpace(l[0])
    requires r != [] ==> !IsSpace(r[|r| - 1])
    ensures SpaceAround(s, r, |s| - |l|)
    ensures r != [] ==> !IsSpace(r[0]) && !IsSpace(r[|r| - 1])
  {
    var i := |s| - |l|;
    assert s[i + |r|..] == l[|r|..];
    assert r != [] ==> r[0] == l[0];
  }

  /** White space on both sides of an empty slice makes all of `s` white space. */
  lemma AllSpaceAround(s: string, i: int)
    requires 0 <= i <= |s| && AllSpace(s[..i]) && AllSpace(s[i..])
    ensures AllSpace(s)
  {
    forall k | 0 <= k < |s| ensures IsSpace(s[k]) {
      if k < i { assert s[..i][k] == s[k]; } else { assert s[i..][k - i] == s[k]; }
    }
  }

  /** Only one index has only white space before it and none at it. */
  lemma FirstNonSpace(s: string, i: int, j: int)
    requires 0 <= i < |s| && AllSpace(s[..i]) && !IsSpace(s[i])
    requires 0 <= j < |s| && AllSpace(s[..j]) && !IsSpace(s[j])
    ensures i == j
  {
  }

  /** Only one end index has only white space after it and none just before it. */
  lemma LastNonSpace(s: string, e: int, f: int)
    requires 0 < e <= |s| && AllSpace(s[e..]) && !IsSpace(s[e - 1])
    requires 0 < f <= |s| && AllSpace(s[f..]) && !IsSpace(s[f - 1])
    ensures e == f
  {
  }

  /** A slice with only white space around it and none at its ends is the `strip()` of `s`. */
  lemma StripUnique(s: string, r: string, i: int)
    requires SpaceAround(s, r, i)
    requires r != [] ==> !IsSpace(r[0]) && !IsSpace(r[|r| - 1])
    ensures r == Strip(s)
  {
    var t := Strip(s);
    var j :| SpaceAround(s, t, j);
    if r == [] {
      AllSpaceAround(s, i);
    } else if t == [] {
      AllSpaceAround(s, j);
    } else {
      assert r[0] == s[i] && t[0] == s[j];
      FirstNonSpace(s, i, j);
      assert r[|r| - 1] == s[i + |r| - 1] && t[|t| - 1] == s[j + |t| - 1];
      LastNonSpace(s, i + |r|, j + |t|);
    }
  }

  function UpperChar(c: char): (d: char)
  {
    if 'a' <= c <= 'z' then (c as int - 32) as char else c
  }

  /** Upper-casing neither makes nor removes white space. */
  lemma UpperCharSpace(c: char)
    ensures IsSpace(UpperChar(c)) == IsSpace(c)
  {
  }

  /** Python's `s.upper()` and the store's `UPPER`, on ASCII letters. */
  function Upper(s: string): (r: string)
    ensures |r| == |s|
    ensures forall i :: 0 <= i < |s| ==> r[i] == UpperChar(s[i])
  {
    if s == [] then [] else [UpperChar(s[0])] + Upper(s[1..])
  }

  /** `r` is the slice of `s` at `i` upper-cased, and only white space surrounds that slice. */
  predicate UpperAround(s: string, r: string, i: int)
  {
    0 <= i <= |s| - |r| && r == Upper(s[i..i + |r|]) && AllSpace(s[..i]) && AllSpace(s[i + |r|..])
  }

  /** Upper-casing a slice with only white space around it. */
  lemma UpperSlice(s: string, t: string, i: int)
    requires SpaceAround(s, t, i)
    ensures UpperAround(s, Upper(t), i)
  {
  }

  /** `s.strip().upper()` is the upper-cased slice left by `strip()`, with no white space at its ends. */
  lemma StripUpperSlice(s: string)
    ensures exists i :: UpperAround(s, Upper(Strip(s)), i)
    ensures Upper(Strip(s)) != [] ==> !IsSpace(Upper(Strip(s))[0]) && !IsSpace(Upper(Strip(s))[|Strip(s)| - 1])
  {
    var t := Strip(s);
    var i :| SpaceAround(s, t, i);
    UpperSlice(s, t, i);
    if t != [] {
      UpperCharSpace(t[0]);
      UpperCharSpace(t[|t| - 1]);
    }
  }

  /** Upper-casing twice is upper-casing once. */
  lemma UpperIdempotent(s: string)
    ensures Upper(Upper(s)) == Upper(s)
  {
    var u := Upper(s);
    assert forall i :: 0 <= i < |s| ==> Upper(u)[i] == UpperChar(UpperChar(s[i])) == UpperChar(s[i]);
  }

  /** A string with no surrounding white space is its own `strip()`. */
  lemma StripStripped(s: string)
    requires s != [] ==> !IsSpace(s[0]) && !IsSpace(s[|s| - 1])
    ensures Strip(s) == s
  {
  }

  /** `strip().upper()` is idempotent: normalising a normalised string changes nothing. */
  lemma {:induction false} StripUpperIdempotent(s: string)
    ensures Upper(Strip(Upper(Strip(s)))) == Upper(Strip(s))
  {
    var u := Upper(Strip(s));
    StripStripped(u);
    UpperIdempotent(Strip(s));
  }

  /** The store's `CONTAINS(s, t)`: `t` occurs in `s` as a contiguous substring. */
  predicate Contains(s: string, t: string)
    decreases |s|
  {
    t <= s || (s != [] && Contains(s[1..], t))
  }

  /** `t` occurs in `s` starting at index `i`. */
  predicate OccursAt(s: string, t: string, i: int)
  {
    0 <= i <= |s| - |t| && s[i..i + |t|] == t
  }

  /** `Contains` agrees with the reference definition: some index where `t` occurs. */
  lemma {:induction false} ContainsAt(s: string, t: string)
    ensures Contains(s, t) <==> exists i :: OccursAt(s, t, i)
    decreases |s|
  {
    if t <= s {
      assert OccursAt(s, t, 0);
    } else if s == [] {
    } else {
      ContainsAt(s[1..], t);
      if Contains(s[1..], t) {
        var i :| OccursAt(s[1..], t, i);
        assert s[i + 1..i + 1 + |t|] == s[1..][i..i + |t|];
        assert OccursAt(s, t, i + 1);
      }
      if exists i :: OccursAt(s, t, i) {
        var i :| OccursAt(s, t, i);
        assert i != 0;
        assert s[1..][i - 1..i - 1 + |t|] == s[i..i + |t|];
        assert OccursAt(s[1..], t, i - 1);
      }
    }
  }

  // ---------------------------------------------------------------------------
  // Lexicographic order on strings (how the store and Python compare strings)
  // ---------------------------------------------------------------------------

  predicate LexLess(a: string, b: string)
    decreases |a|
  {
    |b| > 0 && (|a| == 0 || a[0] < b[0] || (a[0] == b[0] && LexLess(a[1..], b[1..])))
  }

  lemma {:induction false} LexLessIrreflexive(a: string)
    ensures !LexLess(a, a)
    decreases |a|
  {
    if |a| > 0 {
      LexLessIrreflexive(a[1..]);
    }
  }

  lemma {:induction false} LexLessTransitive(a: string, b: string, c: string)
    requires LexLess(a, b) && LexLess(b, c)
    ensures LexLess(a, c)
    decreases |a|
  {
    if |a| > 0 && a[0] == b[0] && b[0] == c[0] {
      LexLessTransitive(a[1..], b[1..], c[1..]);
    }
  }

  lemma {:induction false} LexLessTotal(a: string, b: string)
    ensures a == b || LexLess(a, b) || LexLess(b, a)
    decreases |a|
  {
    if |a| > 0 && |b| > 0 && a[0] == b[0] {
      LexLessTotal(a[1..], b[1..]);
      if a[1..] == b[1..] {
        assert a == [a[0]] + a[1..] && b == [b[0]] + b[1..];
      }
    }
  }

  lemma LexLessAsymmetric(a: string, b: string)
    ensures !(LexLess(a, b) && LexLess(b, a))
  {
    if LexLess(a, b) && LexLess(b, a) {
      LexLessTransitive(a, b, a);
      LexLessIrreflexive(a);
    }
  }

  /** On strings of equal length, comparing from the back agrees with comparing from the front. */
  lemma {:induction false} LexLessSnoc(a: string, c: char, b: string, d: char)
    requires |a| == |b|
    ensures LexLess(a + [c], b + [d]) <==> LexLess(a, b) || (a == b && c < d)
    decreases |a|
  {
    if |a| > 0 {
      assert (a + [c])[1..] == a[1..] + [c];
      assert (b + [d])[1..] == b[1..] + [d];
      LexLessSnoc(a[1..], c, b[1..], d);
      if a[0] == b[0] && a[1..] == b[1..] {
        assert a == [a[0]] + a[1..] && b == [b[0]] + b[1..];
      }
    }
  }
}
