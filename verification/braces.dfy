/** Brace nesting of the C initializer text: an opening brace is never closed before it is
    opened, and every one is closed by the end. */
module Braces {
  import opened Text

  /** Opening braces minus closing braces in `s`. */
  function Depth(s: string): int
  {
    if |s| == 0 then 0
    else Depth(s[..|s| - 1]) + (if s[|s| - 1] == '{' then 1 else if s[|s| - 1] == '}' then -1 else 0)
  }

  predicate BraceFree(s: string)
  {
    forall i :: 0 <= i < |s| ==> s[i] != '{' && s[i] != '}'
  }

  /** No prefix closes more braces than it opened, and the whole text closes all it opened. */
  ghost predicate Balanced(s: string)
  {
    && Depth(s) == 0
    && forall p :: 0 <= p <= |s| ==> Depth(s[..p]) >= 0
  }

  lemma {:induction false} DepthAppend(a: string, b: string)
    ensures Depth(a + b) == Depth(a) + Depth(b)
    decreases |b|
  {
    if |b| == 0 {
      assert a + b == a;
    } else {
      assert (a + b)[..|a + b| - 1] == a + b[..|b| - 1];
      DepthAppend(a, b[..|b| - 1]);
    }
  }

  lemma {:induction false} BraceFreeDepth(s: string)
    requires BraceFree(s)
    ensures Depth(s) == 0
    decreases |s|
  {
    if |s| > 0 {
      BraceFreeDepth(s[..|s| - 1]);
    }
  }

  lemma BraceFreeBalanced(s: string)
    requires BraceFree(s)
    ensures Balanced(s)
  {
    BraceFreeDepth(s);
    forall p | 0 <= p <= |s|
      ensures Depth(s[..p]) >= 0
    {
      BraceFreeDepth(s[..p]);
    }
  }

  lemma BalancedAppend(a: string, b: string)
    requires Balanced(a) && Balanced(b)
    ensures Balanced(a + b)
  {
    DepthAppend(a, b);
    forall p | 0 <= p <= |a + b|
      ensures Depth((a + b)[..p]) >= 0
    {
      if p <= |a| {
        assert (a + b)[..p] == a[..p];
      } else {
        assert (a + b)[..p] == a + b[..p - |a|];
        DepthAppend(a, b[..p - |a|]);
      }
    }
  }

  /** Wrapping balanced text in a brace pair keeps it balanced. */
  lemma BalancedWrap(s: string)
    requires Balanced(s)
    ensures Balanced("{" + s + "}")
  {
    var w := "{" + s + "}";
    DepthAppend("{" + s, "}");
    DepthAppend("{", s);
    forall p | 0 <= p <= |w|
      ensures Depth(w[..p]) >= 0
    {
      if p == 0 {
      } else if p <= |s| + 1 {
        assert w[..p] == "{" + s[..p - 1];
        DepthAppend("{", s[..p - 1]);
      } else {
        assert w[..p] == w;
      }
    }
  }

  lemma BraceFreeAppend(a: string, b: string)
    requires BraceFree(a) && BraceFree(b)
    ensures BraceFree(a + b)
  {
  }

  /** Brace-free parts joined by a brace-free separator give brace-free text. */
  lemma {:induction false} BraceFreeJoin(parts: seq<string>, sep: string)
    requires forall k :: 0 <= k < |parts| ==> BraceFree(parts[k])
    requires BraceFree(sep)
    ensures BraceFree(Join(parts, sep))
    decreases |parts|
  {
    var n := |parts|;
    if n > 1 {
      BraceFreeJoin(parts[..n - 1], sep);
      BraceFreeAppend(Join(parts[..n - 1], sep), sep);
      BraceFreeAppend(Join(parts[..n - 1], sep) + sep, parts[n - 1]);
    }
  }

  /** Balanced parts joined by a brace-free separator give balanced text. */
  lemma {:induction false} BalancedJoin(parts: seq<string>, sep: string)
    requires forall k :: 0 <= k < |parts| ==> Balanced(parts[k])
    requires BraceFree(sep)
    ensures Balanced(Join(parts, sep))
    decreases |parts|
  {
    var n := |parts|;
    if n == 0 {
      BraceFreeBalanced("");
    } else if n > 1 {
      BalancedJoin(parts[..n - 1], sep);
      BraceFreeBalanced(sep);
      BalancedAppend(Join(parts[..n - 1], sep), sep);
      BalancedAppend(Join(parts[..n - 1], sep) + sep, parts[n - 1]);
    }
  }
}
