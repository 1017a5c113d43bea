/** String operations the harness builds its names and call expressions
    from: ASCII case conversion, substring search and deletion, splitting at
    a character, joining with a separator and decimal rendering of indices. */
module Text {

  /** The regular-expression class `[A-Z]`. */
  predicate IsUpper(c: char) {
    'A' <= c <= 'Z'
  }

  predicate IsDigit(c: char) {
    '0' <= c <= '9'
  }

  /** `str.lower()` restricted to ASCII: upper-case letters map to lower
      case, every other character is kept. */
  function ToLower(c: char): (r: char)
    ensures !IsUpper(r)
  {
    if IsUpper(c) then (c as int + 32) as char else c
  }

  /** `str.upper()` restricted to ASCII. */
  function ToUpper(c: char): char {
    if 'a' <= c <= 'z' then (c as int - 32) as char else c
  }

  lemma UpperLowerInverse(c: char)
    requires IsUpper(c)
    ensures ToUpper(ToLower(c)) == c
  {
  }

  /** Python's `p in s` on strings. */
  predicate Contains(s: string, p: string)
    decreases |s|
  {
    p <= s || (s != [] && Contains(s[1..], p))
  }

  /** A string that lacks one of the characters of `p` cannot contain `p`. */
  lemma {:induction false} MissingCharNotContained(s: string, p: string, c: char)
    requires c in p && c !in s
    ensures !Contains(s, p)
  {
    if s != [] {
      MissingCharNotContained(s[1..], p, c);
    }
  }

  lemma {:induction false} ContainsInRight(a: string, b: string, p: string)
    requires Contains(b, p)
    ensures Contains(a + b, p)
  {
    if a == [] {
      assert a + b == b;
    } else {
      assert (a + b)[1..] == a[1..] + b;
      ContainsInRight(a[1..], b, p);
    }
  }

  lemma {:induction false} ContainsInLeft(a: string, b: string, p: string)
    requires Contains(a, p)
    ensures Contains(a + b, p)
  {
    if p <= a {
      assert p <= a + b;
    } else {
      assert (a + b)[1..] == a[1..] + b;
      ContainsInLeft(a[1..], b, p);
    }
  }

  /** `p` is a prefix of `s` exactly when `s` starts with `p`; a prefix is
      in particular contained. */
  lemma PrefixContained(s: string, p: string)
    requires p <= s
    ensures Contains(s, p)
  {
  }

  /** No occurrence of `p` starts before index `n` of `s`. */
  predicate NoMatchBefore(s: string, p: string, n: nat) {
    forall i | 0 <= i < n && i <= |s| :: !(p <= s[i..])
  }

  /** Python's `s.replace(p, '')`: scanning left to right, every
      non-overlapping occurrence of `p` is deleted. */
  function RemoveAll(s: string, p: string): (r: string)
    requires p != []
    ensures |r| <= |s|
    ensures forall c | c in r :: c in s
    decreases |s|
  {
    if s == [] then []
    else if p <= s then RemoveAll(s[|p|..], p)
    else [s[0]] + RemoveAll(s[1..], p)
  }

  /** Deleting a pattern that does not occur changes nothing. */
  lemma {:induction false} RemoveAllAbsent(s: string, p: string)
    requires p != [] && !Contains(s, p)
    ensures RemoveAll(s, p) == s
  {
    if s != [] {
      RemoveAllAbsent(s[1..], p);
    }
  }

  /** A leading occurrence is deleted and the scan resumes after it. */
  lemma RemoveAllLeading(p: string, t: string)
    requires p != []
    ensures RemoveAll(p + t, p) == RemoveAll(t, p)
  {
    assert p <= p + t;
    assert (p + t)[|p|..] == t;
  }

  /** A trailing occurrence preceded by no other occurrence is the only
      thing deleted. */
  lemma {:induction false} RemoveAllTrailing(a: string, p: string)
    requires p != [] && NoMatchBefore(a + p, p, |a|)
    ensures RemoveAll(a + p, p) == a
  {
    if a == [] {
      assert a + p == p + [];
      RemoveAllLeading(p, []);
    } else {
      assert (a + p)[0..] == a + p;
      assert !(p <= a + p);
      assert (a + p)[1..] == a[1..] + p;
      forall i | 0 <= i < |a[1..]| && i <= |a[1..] + p|
        ensures !(p <= (a[1..] + p)[i..])
      {
        assert (a[1..] + p)[i..] == (a + p)[i + 1..];
      }
      RemoveAllTrailing(a[1..], p);
    }
  }

  /** When the first character of `p` does not occur in `a`, no occurrence
      of `p` in `a + p` can start inside `a`. */
  lemma FirstCharAbsentNoMatch(a: string, p: string)
    requires p != [] && p[0] !in a
    ensures NoMatchBefore(a + p, p, |a|)
  {
    forall i | 0 <= i < |a| && i <= |a + p|
      ensures !(p <= (a + p)[i..])
    {
      assert (a + p)[i..][0] == a[i];
    }
  }

  /** Python's `s.split(c)[0]`: the text before the first `c`, or all of
      `s` when `c` does not occur. */
  function BeforeFirst(s: string, c: char): (r: string)
    ensures c !in r && r <= s
    ensures |r| < |s| ==> s[|r|] == c
  {
    if s == [] then []
    else if s[0] == c then []
    else [s[0]] + BeforeFirst(s[1..], c)
  }

  lemma {:induction false} BeforeFirstOfConcat(a: string, c: char, b: string)
    requires c !in a
    ensures BeforeFirst(a + [c] + b, c) == a
  {
    if a == [] {
      assert (a + [c] + b)[0] == c;
    } else {
      assert (a + [c] + b)[0] == a[0];
      assert (a + [c] + b)[1..] == a[1..] + [c] + b;
      BeforeFirstOfConcat(a[1..], c, b);
    }
  }

  /** Python's `sep.join(xs)`. */
  function Join(xs: seq<string>, sep: string): string {
    if xs == [] then []
    else if |xs| == 1 then xs[0]
    else xs[0] + sep + Join(xs[1..], sep)
  }

  lemma AppendAssoc<T>(a: seq<T>, b: seq<T>, c: seq<T>)
    ensures a + (b + c) == (a + b) + c
  {
  }

  /** The pieces written one after the other (`''.join`). */
  function Concat(parts: seq<string>): string {
    if parts == [] then [] else parts[0] + Concat(parts[1..])
  }

  /** Every piece occurs in the concatenation. */
  lemma {:induction false} ConcatContains(parts: seq<string>, k: nat)
    requires k < |parts|
    ensures Contains(Concat(parts), parts[k])
  {
    if k == 0 {
      PrefixContained(parts[0], parts[0]);
      ContainsInLeft(parts[0], Concat(parts[1..]), parts[0]);
    } else {
      ConcatContains(parts[1..], k - 1);
      ContainsInRight(parts[0], Concat(parts[1..]), parts[k]);
    }
  }

  /** Joining a non-empty list with one more element appends the separator
      and that element. */
  lemma {:induction false} JoinSnoc(xs: seq<string>, sep: string, x: string)
    requires xs != []
    ensures Join(xs + [x], sep) == Join(xs, sep) + sep + x
  {
    if |xs| > 1 {
      assert (xs + [x])[1..] == xs[1..] + [x];
      JoinSnoc(xs[1..], sep, x);
    }
  }

  /** Python's `s.split(sep)` for a non-empty separator. */
  function Split(s: string, sep: string): (r: seq<string>)
    requires sep != []
    ensures r != []
    decreases |s|
  {
    if s == [] then [[]]
    else if sep <= s then [[]] + Split(s[|sep|..], sep)
    else var rest := Split(s[1..], sep); [[s[0]] + rest[0]] + rest[1..]
  }

  /** Splitting a field that holds no character of the separator's first
      character extends the first piece. */
  lemma {:induction false} SplitField(x: string, s: string, sep: string)
    requires sep != [] && sep[0] !in x
    ensures Split(x + s, sep) == [x + Split(s, sep)[0]] + Split(s, sep)[1..]
  {
    if x != [] {
      assert (x + s)[1..] == x[1..] + s;
      assert !(sep <= x + s) by { assert (x + s)[0] == x[0]; }
      SplitField(x[1..], s, sep);
      assert [x[0]] + (x[1..] + Split(s, sep)[0]) == x + Split(s, sep)[0];
    } else {
      var r := Split(s, sep);
      assert x + s == s && x + r[0] == r[0];
      assert [r[0]] + r[1..] == r;
    }
  }

  /** Splitting undoes joining, when no element holds the separator's first
      character. */
  lemma {:induction false} SplitJoin(xs: seq<string>, sep: string)
    requires sep != [] && xs != []
    requires forall k | 0 <= k < |xs| :: sep[0] !in xs[k]
    ensures Split(Join(xs, sep), sep) == xs
  {
    if |xs| == 1 {
      SplitField(xs[0], [], sep);
      assert xs[0] + [] == xs[0] && Split([], sep) == [[]];
      assert [xs[0]] == xs;
    } else {
      SplitJoin(xs[1..], sep);
      var tail := sep + Join(xs[1..], sep);
      assert Join(xs, sep) == xs[0] + tail;
      SplitField(xs[0], tail, sep);
      RemovePrefixSplit(sep, Join(xs[1..], sep));
      var r := Split(tail, sep);
      assert r == [[]] + xs[1..];
      assert r[0] == [] && r[1..] == xs[1..];
      assert xs[0] + r[0] == xs[0];
      assert [xs[0]] + xs[1..] == xs;
    }
  }

  lemma RemovePrefixSplit(sep: string, t: string)
    requires sep != []
    ensures Split(sep + t, sep) == [[]] + Split(t, sep)
  {
    assert sep <= sep + t;
    assert (sep + t)[|sep|..] == t;
  }

  function Digit(d: nat): (c: char)
    requires d < 10
    ensures IsDigit(c)
  {
    ('0' as int + d) as char
  }

  /** Python's `str(n)` for a non-negative integer. */
  function Decimal(n: nat): (r: string)
    ensures r != [] && forall k | 0 <= k < |r| :: IsDigit(r[k])
  {
    if n < 10 then [Digit(n)] else Decimal(n / 10) + [Digit(n % 10)]
  }

  /** The value of a string of decimal digits (the inverse of `Decimal`). */
  function ParseDecimal(s: string): int
    requires forall k | 0 <= k < |s| :: IsDigit(s[k])
  {
    if s == [] then 0
    else ParseDecimal(s[..|s| - 1]) * 10 + (s[|s| - 1] as int - '0' as int)
  }

  lemma {:induction false} DecimalRoundTrip(n: nat)
    ensures ParseDecimal(Decimal(n)) == n
  {
    if n >= 10 {
      var s := Decimal(n);
      assert s[..|s| - 1] == Decimal(n / 10);
      DecimalRoundTrip(n / 10);
    }
  }

  /** Distinct indices have distinct decimal names. */
  lemma DecimalInjective(m: nat, n: nat)
    requires Decimal(m) == Decimal(n)
    ensures m == n
  {
    DecimalRoundTrip(m);
    DecimalRoundTrip(n);
  }
}
