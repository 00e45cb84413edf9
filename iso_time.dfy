/**
 * Timestamps and their string form.
 *
 * A `datetime` is modelled as an `Instant`, a count of microseconds since the start
 * of year 1 (Python's `datetime.max` is below 3.2 * 10^17 such microseconds). Its
 * string form stands in for `isoformat()`: a fixed number of decimal digits, so that,
 * like ISO-8601 strings within the `datetime` range, the encoding is injective, has
 * an inverse (`FromIsoFormat`, standing in for `fromisoformat`), and string order
 * agrees with time order.
 */
module IsoTime {
  import opened Wrappers
  import opened Strings

  /** Number of digits in the string form of a timestamp. */
  const Width: nat := 18

  function Pow10(n: nat): (r: nat)
    ensures r >= 1
  {
    if n == 0 then 1 else 10 * Pow10(n - 1)
  }

  type Instant = t: nat | t < Pow10(Width)

  predicate IsDigit(c: char)
  {
    '0' <= c <= '9'
  }

  predicate AllDigits(s: string)
  {
    forall i :: 0 <= i < |s| ==> IsDigit(s[i])
  }

  function DigitChar(d: nat): (c: char)
    requires d < 10
    ensures IsDigit(c)
  {
    ('0' as int + d) as char
  }

  function DigitValue(c: char): (d: nat)
    requires IsDigit(c)
    ensures d < 10 && DigitChar(d) == c
  {
    c as int - '0' as int
  }

  /** The last `w` decimal digits of `t`, most significant first. */
  function Digits(t: nat, w: nat): (s: string)
    ensures |s| == w && AllDigits(s)
  {
    if w == 0 then [] else Digits(t / 10, w - 1) + [DigitChar(t % 10)]
  }

  function ParseDigits(s: string): (t: nat)
    requires AllDigits(s)
    ensures t < Pow10(|s|)
  {
    if s == [] then 0 else 10 * ParseDigits(s[..|s| - 1]) + DigitValue(s[|s| - 1])
  }

  /** `datetime.isoformat()`. */
  function IsoFormat(t: Instant): (s: string)
    ensures |s| == Width && AllDigits(s)
  {
    Digits(t, Width)
  }

  /** `datetime.fromisoformat(s)`; `None` where Python raises `ValueError`. */
  function FromIsoFormat(s: string): (r: Option<Instant>)
    ensures r.Some? <==> |s| == Width && AllDigits(s)
  {
    if |s| == Width && AllDigits(s) then Some(ParseDigits(s)) else None
  }

  lemma {:induction false} DigitsRoundTrip(t: nat, w: nat)
    requires t < Pow10(w)
    ensures ParseDigits(Digits(t, w)) == t
  {
    if w > 0 {
      DigitsRoundTrip(t / 10, w - 1);
      var s := Digits(t, w);
      assert s[..|s| - 1] == Digits(t / 10, w - 1);
    }
  }

  lemma {:induction false} ParseDigitsRoundTrip(s: string)
    requires AllDigits(s)
    ensures Digits(ParseDigits(s), |s|) == s
  {
    if s != [] {
      var init := s[..|s| - 1];
      ParseDigitsRoundTrip(init);
      var t := ParseDigits(s);
      assert t / 10 == ParseDigits(init) && t % 10 == DigitValue(s[|s| - 1]);
      assert s == init + [s[|s| - 1]];
    }
  }

  /** Parsing the string form gives back the timestamp. */
  lemma IsoRoundTrip(t: Instant)
    ensures FromIsoFormat(IsoFormat(t)) == Some(t)
  {
    DigitsRoundTrip(t, Width);
  }

  /** Every string that parses is the string form of what it parses to. */
  lemma IsoCanonical(s: string)
    requires FromIsoFormat(s).Some?
    ensures IsoFormat(FromIsoFormat(s).value) == s
  {
    ParseDigitsRoundTrip(s);
  }

  lemma IsoInjective(t1: Instant, t2: Instant)
    ensures IsoFormat(t1) == IsoFormat(t2) <==> t1 == t2
  {
    IsoRoundTrip(t1);
    IsoRoundTrip(t2);
  }

  lemma {:induction false} DigitsOrder(t1: nat, t2: nat, w: nat)
    requires t1 < Pow10(w) && t2 < Pow10(w)
    ensures LexLess(Digits(t1, w), Digits(t2, w)) <==> t1 < t2
  {
    if w == 0 {
    } else {
      var q1, q2 := t1 / 10, t2 / 10;
      DigitsOrder(q1, q2, w - 1);
      DigitsRoundTrip(q1, w - 1);
      DigitsRoundTrip(q2, w - 1);
      LexLessSnoc(Digits(q1, w - 1), DigitChar(t1 % 10), Digits(q2, w - 1), DigitChar(t2 % 10));
    }
  }

  /** Comparing string forms compares the timestamps. */
  lemma IsoOrder(t1: Instant, t2: Instant)
    ensures LexLess(IsoFormat(t1), IsoFormat(t2)) <==> t1 < t2
  {
    DigitsOrder(t1, t2, Width);
  }
}
