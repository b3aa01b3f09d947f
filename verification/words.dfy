/** Splitting text into words at separator characters, the way Python's `str.split()` (with no
    argument) splits at whitespace: runs of separators are one break, and leading or trailing
    separators give no empty words. The same function, with the brace-list punctuation as
    separators, reads the numbers back out of the C initializer text. */
module Words {
  import opened Text

  /** The characters Python's `str.isspace()` accepts, which `str.split()` splits at. */
  const Whitespace: set<char> := {
    '\t', '\n', '\U{B}', '\U{C}', '\r', '\U{1C}', '\U{1D}', '\U{1E}', '\U{1F}', ' ',
    '\U{85}', '\U{A0}', '\U{1680}',
    '\U{2000}', '\U{2001}', '\U{2002}', '\U{2003}', '\U{2004}', '\U{2005}', '\U{2006}',
    '\U{2007}', '\U{2008}', '\U{2009}', '\U{200A}',
    '\U{2028}', '\U{2029}', '\U{202F}', '\U{205F}', '\U{3000}'
  }

  /** No character of `w` is a separator. */
  predicate SepFree(w: string, seps: set<char>)
  {
    forall i :: 0 <= i < |w| ==> w[i] !in seps
  }

  /** Every character of `s` is a separator. */
  predicate AllSeps(s: string, seps: set<char>)
  {
    forall i :: 0 <= i < |s| ==> s[i] in seps
  }

  /** Length of the longest separator-free prefix of `s`. */
  function WordLen(s: string, seps: set<char>): (n: nat)
    ensures n <= |s|
    ensures forall i :: 0 <= i < n ==> s[i] !in seps
    ensures n == |s| || s[n] in seps
  {
    if |s| == 0 || s[0] in seps then 0 else 1 + WordLen(s[1..], seps)
  }

  /** The maximal separator-free runs of `s`, in order. */
  function Split(s: string, seps: set<char>): (words: seq<string>)
    ensures forall k :: 0 <= k < |words| ==> |words[k]| > 0 && SepFree(words[k], seps)
    decreases |s|
  {
    if |s| == 0 then []
    else if s[0] in seps then Split(s[1..], seps)
    else
      var n := WordLen(s, seps);
      [s[..n]] + Split(s[n..], seps)
  }

  /** `a` and `b` meet at a separator (or one of them is empty), so no word straddles them. */
  predicate Boundary(a: string, b: string, seps: set<char>)
  {
    |a| == 0 || |b| == 0 || a[|a| - 1] in seps || b[0] in seps
  }

  lemma WordLenAppend(a: string, b: string, seps: set<char>)
    requires |a| > 0 && Boundary(a, b, seps)
    ensures WordLen(a + b, seps) == WordLen(a, seps)
  {
    var n := WordLen(a, seps);
    var m := WordLen(a + b, seps);
    assert forall i :: 0 <= i < |a| ==> (a + b)[i] == a[i];
    if n == |a| && |b| > 0 {
      assert (a + b)[n] == b[0];
    }
  }

  /** Text that meets at a separator splits into the words of each side. */
  lemma {:induction false} SplitAppend(a: string, b: string, seps: set<char>)
    requires Boundary(a, b, seps)
    ensures Split(a + b, seps) == Split(a, seps) + Split(b, seps)
    decreases |a|
  {
    if |a| == 0 {
      assert a + b == b;
    } else if a[0] in seps {
      assert (a + b)[1..] == a[1..] + b;
      SplitAppend(a[1..], b, seps);
    } else {
      var n := WordLen(a, seps);
      WordLenAppend(a, b, seps);
      assert (a + b)[..n] == a[..n];
      assert (a + b)[n..] == a[n..] + b;
      SplitAppend(a[n..], b, seps);
    }
  }

  lemma SplitWord(w: string, seps: set<char>)
    requires |w| > 0 && SepFree(w, seps)
    ensures Split(w, seps) == [w]
  {
    assert WordLen(w, seps) == |w|;
    assert w[..|w|] == w;
  }

  lemma {:induction false} SplitSeps(s: string, seps: set<char>)
    requires AllSeps(s, seps)
    ensures Split(s, seps) == []
    decreases |s|
  {
    if |s| > 0 {
      SplitSeps(s[1..], seps);
    }
  }

  /** Separators around a text add no words. */
  lemma SplitWrapped(pre: string, x: string, post: string, seps: set<char>)
    requires AllSeps(pre, seps) && AllSeps(post, seps)
    ensures Split(pre + x + post, seps) == Split(x, seps)
  {
    SplitAppend(pre, x, seps);
    SplitAppend(pre + x, post, seps);
    SplitSeps(pre, seps);
    SplitSeps(post, seps);
  }

  lemma {:induction false} WordLenReplace(s: string, c: char, d: char, seps: set<char>)
    requires c in seps && d in seps
    ensures WordLen(ReplaceChar(s, c, d), seps) == WordLen(s, seps)
    decreases |s|
  {
    if |s| > 0 && s[0] !in seps {
      assert ReplaceChar(s, c, d)[1..] == ReplaceChar(s[1..], c, d);
      WordLenReplace(s[1..], c, d, seps);
    }
  }

  /** Replacing one separator by another splits into the same words: `replace('\n', ' ')`
      before `split()` changes nothing. */
  lemma {:induction false} SplitReplace(s: string, c: char, d: char, seps: set<char>)
    requires c in seps && d in seps
    ensures Split(ReplaceChar(s, c, d), seps) == Split(s, seps)
    decreases |s|
  {
    if |s| > 0 {
      var r := ReplaceChar(s, c, d);
      if s[0] in seps {
        assert r[1..] == ReplaceChar(s[1..], c, d);
        SplitReplace(s[1..], c, d, seps);
      } else {
        WordLenReplace(s, c, d, seps);
        var n := WordLen(s, seps);
        assert r[..n] == s[..n];
        assert r[n..] == ReplaceChar(s[n..], c, d);
        SplitReplace(s[n..], c, d, seps);
      }
    }
  }

  /** The words of each part, one part after the other. */
  function SplitEach(parts: seq<string>, seps: set<char>): seq<string>
  {
    if |parts| == 0 then [] else SplitEach(parts[..|parts| - 1], seps) + Split(parts[|parts| - 1], seps)
  }

  lemma SplitEachSingle(x: string, seps: set<char>)
    ensures SplitEach([x], seps) == Split(x, seps)
  {
    assert [x][..0] == [];
  }

  lemma {:induction false} SplitEachAppend(a: seq<string>, b: seq<string>, seps: set<char>)
    ensures SplitEach(a + b, seps) == SplitEach(a, seps) + SplitEach(b, seps)
    decreases |b|
  {
    if |b| == 0 {
      AppendEmpty(a, b);
    } else {
      var b', x := b[..|b| - 1], b[|b| - 1];
      AppendInit(a, b);
      SplitEachAppend(a, b', seps);
      AppendAssoc(SplitEach(a, seps), SplitEach(b', seps), Split(x, seps));
    }
  }

  /** Joining with a separator string made of separators keeps every part's words apart. */
  lemma {:induction false} SplitJoin(parts: seq<string>, sep: string, seps: set<char>)
    requires |sep| > 0 && AllSeps(sep, seps)
    ensures Split(Join(parts, sep), seps) == SplitEach(parts, seps)
    decreases |parts|
  {
    var n := |parts|;
    if n == 1 {
      assert SplitEach(parts, seps) == SplitEach([], seps) + Split(parts[0], seps);
    } else if n > 1 {
      var init, last := parts[..n - 1], parts[n - 1];
      SplitJoin(init, sep, seps);
      SplitAppend(Join(init, sep), sep, seps);
      SplitSeps(sep, seps);
      SplitAppend(Join(init, sep) + sep, last, seps);
    }
  }

  /** A character that `s` does not contain is in none of its words. */
  lemma {:induction false} SplitKeepsAbsent(s: string, seps: set<char>, c: char)
    requires forall i :: 0 <= i < |s| ==> s[i] != c
    ensures forall k, i :: 0 <= k < |Split(s, seps)| && 0 <= i < |Split(s, seps)[k]| ==> Split(s, seps)[k][i] != c
    decreases |s|
  {
    if |s| > 0 {
      if s[0] in seps {
        SplitKeepsAbsent(s[1..], seps, c);
      } else {
        SplitKeepsAbsent(s[WordLen(s, seps)..], seps, c);
      }
    }
  }

  /** `s` with every separator deleted. */
  function DropSeps(s: string, seps: set<char>): (r: string)
    ensures SepFree(r, seps)
  {
    if |s| == 0 then "" else (if s[0] in seps then "" else [s[0]]) + DropSeps(s[1..], seps)
  }

  lemma {:induction false} DropSepsAppend(a: string, b: string, seps: set<char>)
    ensures DropSeps(a + b, seps) == DropSeps(a, seps) + DropSeps(b, seps)
    decreases |a|
  {
    if |a| > 0 {
      assert (a + b)[1..] == a[1..] + b;
      DropSepsAppend(a[1..], b, seps);
    } else {
      assert a + b == b;
    }
  }

  lemma {:induction false} DropSepsOfSepFree(w: string, seps: set<char>)
    requires SepFree(w, seps)
    ensures DropSeps(w, seps) == w
    decreases |w|
  {
    if |w| > 0 {
      DropSepsOfSepFree(w[1..], seps);
      assert w == [w[0]] + w[1..];
    }
  }

  /** Splitting loses exactly the separators: the words, run together, are the text with every
      separator deleted. */
  lemma {:induction false} SplitConcat(s: string, seps: set<char>)
    ensures Concat(Split(s, seps)) == DropSeps(s, seps)
    decreases |s|
  {
    if |s| > 0 {
      if s[0] in seps {
        SplitConcat(s[1..], seps);
      } else {
        var n := WordLen(s, seps);
        var w, rest := s[..n], s[n..];
        SplitConcat(rest, seps);
        ConcatAppend([w], Split(rest, seps));
        assert Concat([w]) == Concat([]) + w;
        assert s == w + rest;
        DropSepsAppend(w, rest, seps);
        DropSepsOfSepFree(w, seps);
      }
    }
  }
}
