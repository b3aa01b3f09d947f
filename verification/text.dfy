/** String building blocks shared by every writer in compare.py: concatenation, joining with a
    separator, Python's negative-stop slice `s[:-k]`, character counting and replacement, and
    Python's `str(n)` for non-negative integers. */
module Text {

  /** The parts one after the other, as a loop of `out += part` builds them. */
  function Concat(parts: seq<string>): string
  {
    if |parts| == 0 then "" else Concat(parts[..|parts| - 1]) + parts[|parts| - 1]
  }

  /** Sequence concatenation is associative. */
  lemma AppendAssoc<T>(p: seq<T>, q: seq<T>, r: seq<T>)
    ensures (p + q) + r == p + (q + r)
  {
  }

  /** Dropping the last element of `a + b`, for a non-empty `b`. */
  lemma AppendInit<T>(a: seq<T>, b: seq<T>)
    requires |b| > 0
    ensures (a + b)[..|a + b| - 1] == a + b[..|b| - 1]
    ensures (a + b)[|a + b| - 1] == b[|b| - 1]
  {
  }

  /** `xs + [x]` without its last element is `xs`. */
  lemma SnocInit<T>(xs: seq<T>, x: T)
    ensures (xs + [x])[..|xs|] == xs
    ensures (xs + [x])[|xs|] == x
  {
  }

  /** Appending leaves the earlier elements where they were. */
  lemma SnocAt<T>(xs: seq<T>, x: T, i: nat)
    requires i < |xs|
    ensures (xs + [x])[i] == xs[i]
  {
  }

  lemma AppendEmpty<T>(a: seq<T>, b: seq<T>)
    requires |b| == 0
    ensures a + b == a
  {
  }

  lemma EmptyPrefix<T>(a: seq<T>, b: seq<T>)
    requires |a| == 0
    ensures a + b == b
  {
  }

  lemma {:induction false} ConcatAppend(a: seq<string>, b: seq<string>)
    ensures Concat(a + b) == Concat(a) + Concat(b)
    decreases |b|
  {
    if |b| == 0 {
      AppendEmpty(a, b);
    } else {
      var b', x := b[..|b| - 1], b[|b| - 1];
      AppendInit(a, b);
      ConcatAppend(a, b');
      AppendAssoc(Concat(a), Concat(b'), x);
    }
  }

  /** The parts with `sep` between neighbours (Python's `sep.join(parts)`). */
  function Join(parts: seq<string>, sep: string): string
  {
    if |parts| == 0 then ""
    else if |parts| == 1 then parts[0]
    else Join(parts[..|parts| - 1], sep) + sep + parts[|parts| - 1]
  }

  lemma JoinSnoc(parts: seq<string>, p: string, sep: string)
    requires |parts| > 0
    ensures Join(parts + [p], sep) == Join(parts, sep) + sep + p
  {
    assert (parts + [p])[..|parts|] == parts;
  }

  /** Appending to the last part appends to the joined text. */
  lemma JoinExtendLast(parts: seq<string>, x: string, sep: string)
    requires |parts| > 0
    ensures Join(parts[..|parts| - 1] + [parts[|parts| - 1] + x], sep) == Join(parts, sep) + x
  {
    var n := |parts|;
    var q := parts[..n - 1] + [parts[n - 1] + x];
    assert q[..n - 1] == parts[..n - 1];
    if n > 1 {
      assert Join(q, sep) == Join(parts[..n - 1], sep) + sep + (parts[n - 1] + x);
    }
  }

  /** Python's `s[:-k]` for a positive `k`: `s` without its last `k` characters, or the empty
      string when `s` is shorter than `k`. */
  function DropLast(s: string, k: nat): (r: string)
    requires k > 0
    ensures |r| == if |s| >= k then |s| - k else 0
  {
    if |s| >= k then s[..|s| - k] else ""
  }

  /** What is left is where `s` starts. */
  lemma DropLastPrefix(s: string, k: nat)
    requires k > 0
    ensures DropLast(s, k) <= s
  {
  }

  /** Cutting off what was just appended gives back the text before it. */
  lemma DropLastAppend(a: string, t: string)
    requires |t| > 0
    ensures DropLast(a + t, |t|) == a
  {
    assert (a + t)[..|a|] == a;
  }

  /** `n` copies of `s`. */
  function Repeat(s: string, n: nat): (r: string)
    ensures |r| == n * |s|
  {
    if n == 0 then "" else Repeat(s, n - 1) + s
  }

  /** `n` spaces. */
  function Spaces(n: nat): (r: string)
    ensures |r| == n
    ensures forall i :: 0 <= i < n ==> r[i] == ' '
  {
    if n == 0 then "" else Spaces(n - 1) + " "
  }

  /** How often `c` occurs in `s`. */
  function Count(s: string, c: char): nat
  {
    if |s| == 0 then 0 else Count(s[..|s| - 1], c) + (if s[|s| - 1] == c then 1 else 0)
  }

  lemma {:induction false} CountAppend(a: string, b: string, c: char)
    ensures Count(a + b, c) == Count(a, c) + Count(b, c)
    decreases |b|
  {
    if |b| == 0 {
      assert a + b == a;
    } else {
      assert (a + b)[..|a + b| - 1] == a + b[..|b| - 1];
      CountAppend(a, b[..|b| - 1], c);
    }
  }

  lemma {:induction false} CountAbsent(s: string, c: char)
    requires forall i :: 0 <= i < |s| ==> s[i] != c
    ensures Count(s, c) == 0
    decreases |s|
  {
    if |s| > 0 {
      CountAbsent(s[..|s| - 1], c);
    }
  }

  /** Parts free of `c`, joined by a separator holding `k` copies of `c`: `c` occurs once per
      separator. */
  lemma {:induction false} CountJoin(parts: seq<string>, sep: string, c: char)
    requires |parts| > 0
    requires forall p :: 0 <= p < |parts| ==> Count(parts[p], c) == 0
    ensures Count(Join(parts, sep), c) == (|parts| - 1) * Count(sep, c)
    decreases |parts|
  {
    var n := |parts|;
    if n > 1 {
      CountJoin(parts[..n - 1], sep, c);
      CountAppend(Join(parts[..n - 1], sep), sep, c);
      CountAppend(Join(parts[..n - 1], sep) + sep, parts[n - 1], c);
      assert (n - 2) * Count(sep, c) + Count(sep, c) == (n - 1) * Count(sep, c);
    }
  }

  /** Python's `s.replace(c, '')`. */
  function RemoveChar(s: string, c: char): (r: string)
    ensures forall i :: 0 <= i < |r| ==> r[i] != c
    ensures |r| == |s| - Count(s, c)
  {
    if |s| == 0 then ""
    else RemoveChar(s[..|s| - 1], c) + (if s[|s| - 1] == c then "" else [s[|s| - 1]])
  }

  /** Characters of `RemoveChar(s, c)` all come from `s`, so a character absent from `s` stays
      absent. */
  lemma {:induction false} RemoveCharKeepsAbsent(s: string, c: char, d: char)
    requires forall i :: 0 <= i < |s| ==> s[i] != d
    ensures forall i :: 0 <= i < |RemoveChar(s, c)| ==> RemoveChar(s, c)[i] != d
    decreases |s|
  {
    if |s| > 0 {
      RemoveCharKeepsAbsent(s[..|s| - 1], c, d);
    }
  }

  /** Removing a character that does not occur changes nothing. */
  lemma {:induction false} RemoveCharAbsent(s: string, c: char)
    requires forall i :: 0 <= i < |s| ==> s[i] != c
    ensures RemoveChar(s, c) == s
    decreases |s|
  {
    if |s| > 0 {
      RemoveCharAbsent(s[..|s| - 1], c);
      assert s == s[..|s| - 1] + [s[|s| - 1]];
    }
  }

  /** Python's `s.replace(c, d)` for single characters. */
  function ReplaceChar(s: string, c: char, d: char): (r: string)
    ensures |r| == |s|
    ensures forall i {:trigger r[i]} :: 0 <= i < |s| ==> r[i] == if s[i] == c then d else s[i]
  {
    if |s| == 0 then ""
    else ReplaceChar(s[..|s| - 1], c, d) + [if s[|s| - 1] == c then d else s[|s| - 1]]
  }

  predicate IsDigit(c: char)
  {
    '0' <= c <= '9'
  }

  predicate AllDigits(s: string)
  {
    forall i :: 0 <= i < |s| ==> IsDigit(s[i])
  }

  function DigitChar(d: nat): (c: char)
    requires d < 10
    ensures IsDigit(c)
    ensures c as int - '0' as int == d
  {
    (d + '0' as int) as char
  }

  /** Python's `str(n)` for `n >= 0`: its decimal digits, with no leading zero. */
  function Str(n: nat): (r: string)
    ensures |r| > 0 && AllDigits(r)
    ensures r[0] == '0' <==> n == 0
  {
    if n < 10 then [DigitChar(n)] else Str(n / 10) + [DigitChar(n % 10)]
  }

  /** The number a string of decimal digits denotes. */
  function ParseNat(s: string): nat
    requires AllDigits(s)
  {
    if |s| == 0 then 0 else ParseNat(s[..|s| - 1]) * 10 + (s[|s| - 1] as int - '0' as int)
  }

  /** Reading back the decimal text gives the number: `int(str(n)) == n`. */
  lemma {:induction false} ParseStr(n: nat)
    ensures ParseNat(Str(n)) == n
  {
    if n >= 10 {
      var s := Str(n);
      assert s[..|s| - 1] == Str(n / 10);
      ParseStr(n / 10);
    }
  }

  /** Distinct numbers have distinct decimal texts. */
  lemma StrInjective(a: nat, b: nat)
    ensures Str(a) == Str(b) <==> a == b
  {
    if Str(a) == Str(b) {
      ParseStr(a);
      ParseStr(b);
    }
  }

  /** Length of the run of digits that `s` starts with. */
  function LeadingDigits(s: string): (n: nat)
    ensures n <= |s|
  {
    if |s| == 0 || !IsDigit(s[0]) then 0 else 1 + LeadingDigits(s[1..])
  }

  lemma {:induction false} LeadingDigitsOf(d: string, r: string)
    requires AllDigits(d)
    requires |r| == 0 || !IsDigit(r[0])
    ensures LeadingDigits(d + r) == |d|
    decreases |d|
  {
    if |d| > 0 {
      assert (d + r)[1..] == d[1..] + r;
      LeadingDigitsOf(d[1..], r);
    }
  }

  /** A decimal text followed by a non-digit can be read back unambiguously: the digits before
      the first non-digit determine the number. */
  lemma StrThenNonDigit(a: nat, b: nat, r1: string, r2: string)
    requires |r1| > 0 && |r2| > 0 && !IsDigit(r1[0]) && !IsDigit(r2[0])
    requires Str(a) + r1 == Str(b) + r2
    ensures a == b && r1 == r2
  {
    var sa, sb := Str(a), Str(b);
    LeadingDigitsOf(sa, r1);
    LeadingDigitsOf(sb, r2);
    assert sa == (sa + r1)[..|sa|] == (sb + r2)[..|sb|] == sb;
    StrInjective(a, b);
    assert r1 == (sa + r1)[|sa|..] == (sb + r2)[|sb|..] == r2;
  }
}
