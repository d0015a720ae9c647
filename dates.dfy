/** Calendar days as the app writes them: "YYYY-MM-DD" strings. */
module Dates {

  predicate IsDigit(c: char) { '0' <= c <= '9' }

  /** A day in the ISO form the calendar widget produces and `parseISO` reads.
      Only the shape is checked, not the month length. */
  predicate IsDate(s: string)
  {
    && |s| == 10 && s[4] == '-' && s[7] == '-'
    && forall i :: 0 <= i < 10 && i != 4 && i != 7 ==> IsDigit(s[i])
  }

  predicate StartsWith(s: string, prefix: string)
  {
    |prefix| <= |s| && s[..|prefix|] == prefix
  }

  /** `format(parseISO(d), "yyyy-MM")` of a well-formed day. */
  function MonthKey(d: string): (k: string)
    requires IsDate(d)
    ensures |k| == 7 && StartsWith(d, k)
  {
    d[..7]
  }

  /** The four-digit year of a well-formed day (`getFullYear()`). */
  function YearKey(d: string): (y: string)
    requires IsDate(d)
    ensures |y| == 4 && StartsWith(d, y)
  {
    d[..4]
  }

  /** Strict lexicographic order on character codes. On strings of one shape
      made of digits and dashes it is chronological order, and it is the order
      `localeCompare` gives them. */
  predicate LexLess(a: string, b: string)
  {
    if a == [] then b != []
    else if b == [] then false
    else if a[0] < b[0] then true
    else a[0] == b[0] && LexLess(a[1..], b[1..])
  }

  lemma {:induction false} LexLessIrreflexive(a: string)
    ensures !LexLess(a, a)
  {
    if a != [] { LexLessIrreflexive(a[1..]); }
  }

  lemma {:induction false} LexLessAsymmetric(a: string, b: string)
    requires LexLess(a, b)
    ensures !LexLess(b, a)
  {
    if a != [] && b != [] && a[0] == b[0] { LexLessAsymmetric(a[1..], b[1..]); }
  }

  lemma {:induction false} LexLessTransitive(a: string, b: string, c: string)
    requires LexLess(a, b) && LexLess(b, c)
    ensures LexLess(a, c)
  {
    if a != [] && b != [] && c != [] && a[0] == b[0] && b[0] == c[0] {
      LexLessTransitive(a[1..], b[1..], c[1..]);
    }
  }

  lemma {:induction false} LexLessTotal(a: string, b: string)
    requires a != b
    ensures LexLess(a, b) || LexLess(b, a)
  {
    if a != [] && b != [] && a[0] == b[0] {
      assert a == [a[0]] + a[1..] && b == [b[0]] + b[1..];
      LexLessTotal(a[1..], b[1..]);
    }
  }

  /** Strings that are ordered on their first `n` characters are ordered. */
  lemma {:induction false} LexLessExtend(a: string, b: string, n: nat)
    requires 0 < n <= |a| && n <= |b| && LexLess(a[..n], b[..n])
    ensures LexLess(a, b)
  {
    assert a[..n][0] == a[0] && b[..n][0] == b[0];
    if a[0] == b[0] && n > 1 {
      assert a[..n][1..] == a[1..][..n - 1] && b[..n][1..] == b[1..][..n - 1];
      LexLessExtend(a[1..], b[1..], n - 1);
    }
  }

  /** Strings that agree up to position `n` and differ there are ordered by
      the characters at `n`. */
  lemma {:induction false} LexLessAt(a: string, b: string, n: nat)
    requires n < |a| && n < |b| && a[..n] == b[..n] && a[n] < b[n]
    ensures LexLess(a, b)
  {
    if n > 0 {
      assert a[0] == a[..n][0] && b[0] == b[..n][0];
      assert a[1..][..n - 1] == a[..n][1..] && b[1..][..n - 1] == b[..n][1..];
      LexLessAt(a[1..], b[1..], n - 1);
    }
  }

  /** A day of an earlier month is an earlier day: sorting by month key is
      chronological. */
  lemma MonthOrderIsDateOrder(a: string, b: string)
    requires IsDate(a) && IsDate(b) && LexLess(MonthKey(a), MonthKey(b))
    ensures LexLess(a, b)
  {
    LexLessExtend(a, b, 7);
  }
}
