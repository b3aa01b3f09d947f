/** The numpy arrays the exporter writes out, and the number formatter it applies to each element.

    Every element goes through `"{:.8E}".format(Decimal(str(v)))`; that formatter is not modelled
    and is passed around as a function `fmt`. All the writers need to know of it is `FmtOk`: each
    formatted number is non-empty and contains no brace, comma, semicolon, bracket or whitespace (true of
    texts such as `1.23456789E-02`, `-0.00000000E+00`, `NaN` and `Infinity`). */
module Tensors {
  import opened Text
  import opened Words

  /** Characters that delimit numbers in the written text. */
  const Layout: set<char> := {'{', '}', ',', ';', '[', ']'} + Whitespace

  /** The punctuation of the C initializer text. */
  const BraceSeps: set<char> := {'{', '}', ',', ';', ' ', '\n'}

  predicate IsNumeral(s: string)
  {
    |s| > 0 && SepFree(s, Layout)
  }

  /** What the writers rely on from the number formatter. */
  ghost predicate FmtOk<V(!new)>(fmt: V -> string)
  {
    forall v :: IsNumeral(fmt(v))
  }

  /** A numpy array of rank 2 (rows of equal length `cols`), of rank 4 (shape
      `|w| x d1 x d2 x d3`), or of any other rank, whose elements the exporter never reads. */
  datatype Tensor<V> =
    | Rank2(m: seq<seq<V>>, cols: nat)
    | Rank4(w: seq<seq<seq<seq<V>>>>, d1: nat, d2: nat, d3: nat)
    | OtherRank
  {
    /** numpy arrays are rectangular. */
    predicate Valid()
    {
      match this
      case Rank2(m, cols) => IsMatrix(m, cols)
      case Rank4(w, d1, d2, d3) => Shape4(w, d1, d2, d3)
      case OtherRank => true
    }
  }

  predicate IsMatrix<T>(m: seq<seq<T>>, cols: nat)
  {
    forall i :: 0 <= i < |m| ==> |m[i]| == cols
  }

  /** Every row holds at least one element (so `row[0]` exists). */
  predicate NoEmptyRow<T>(m: seq<seq<T>>)
  {
    forall i :: 0 <= i < |m| ==> |m[i]| > 0
  }

  /** The rows of a prefix and of the slice after it are the rows of the longer prefix. */
  lemma NoEmptyRowSplit<T>(m: seq<seq<T>>, a: nat, b: nat)
    requires a <= b <= |m|
    ensures NoEmptyRow(m[..b]) <==> NoEmptyRow(m[..a]) && NoEmptyRow(m[a..b])
  {
    assert forall i :: a <= i < b ==> m[a..b][i - a] == m[..b][i];
  }

  lemma NoEmptyRowPrefix<T>(m: seq<seq<T>>, b: nat)
    requires b <= |m| && NoEmptyRow(m)
    ensures NoEmptyRow(m[..b])
  {
  }

  predicate Shape4<T>(w: seq<seq<seq<seq<T>>>>, d1: nat, d2: nat, d3: nat)
  {
    forall i :: 0 <= i < |w| ==>
      |w[i]| == d1 && forall j :: 0 <= j < d1 ==> |w[i][j]| == d2 && IsMatrix(w[i][j], d3)
  }

  /** Every element formatted, in order. */
  function MapFmt<V>(fmt: V -> string, xs: seq<V>): (r: seq<string>)
    ensures |r| == |xs|
    ensures forall i {:trigger r[i]} :: 0 <= i < |xs| ==> r[i] == fmt(xs[i])
  {
    if |xs| == 0 then [] else MapFmt(fmt, xs[..|xs| - 1]) + [fmt(xs[|xs| - 1])]
  }

  lemma MapFmtAppend<V>(fmt: V -> string, a: seq<V>, b: seq<V>)
    ensures MapFmt(fmt, a + b) == MapFmt(fmt, a) + MapFmt(fmt, b)
  {
  }

  /** Formatting one more element of a prefix. */
  lemma MapFmtSnoc<V>(fmt: V -> string, xs: seq<V>, l: nat)
    requires l < |xs|
    ensures MapFmt(fmt, xs[..l + 1]) == MapFmt(fmt, xs[..l]) + [fmt(xs[l])]
  {
    assert xs[..l + 1][..l] == xs[..l];
  }

  /** The inner sequences one after the other. */
  function Flatten<T>(xss: seq<seq<T>>): seq<T>
  {
    if |xss| == 0 then [] else Flatten(xss[..|xss| - 1]) + xss[|xss| - 1]
  }

  lemma {:induction false} FlattenAppend<T>(a: seq<seq<T>>, b: seq<seq<T>>)
    ensures Flatten(a + b) == Flatten(a) + Flatten(b)
    decreases |b|
  {
    if |b| == 0 {
      AppendEmpty(a, b);
    } else {
      var b', x := b[..|b| - 1], b[|b| - 1];
      AppendInit(a, b);
      FlattenAppend(a, b');
      AppendAssoc(Flatten(a), Flatten(b'), x);
    }
  }

  /** One more row of a prefix appends that row. */
  lemma FlattenPrefix<T>(xss: seq<seq<T>>, i: nat)
    requires i < |xss|
    ensures Flatten(xss[..i + 1]) == Flatten(xss[..i]) + xss[i]
  {
    assert xss[..i + 1][..i] == xss[..i];
  }

  /** Extending a prefix of `k` by one element. */
  lemma PrefixSnoc<T>(pre: seq<T>, k: seq<T>, j: nat)
    requires j < |k|
    ensures pre + k[..j + 1] == (pre + k[..j]) + [k[j]]
  {
    assert k[..j + 1] == k[..j] + [k[j]];
  }

  /** The whole of `s` as a prefix. */
  lemma TakeAll<T>(s: seq<T>)
    ensures s[..|s|] == s
  {
  }

  /** The rows from `a` on are the rows up to `e`, then the rest. */
  lemma SliceSplit<T>(m: seq<T>, a: nat, e: nat)
    requires a <= e <= |m|
    ensures m[a..] == m[a..e] + m[e..]
  {
  }

  lemma PrefixNone<T>(pre: seq<T>, k: seq<T>)
    ensures pre + k[..0] == pre
  {
    assert k[..0] == [];
  }

  lemma PrefixAll<T>(pre: seq<T>, k: seq<T>)
    ensures pre + k[..|k|] == pre + k
  {
    assert k[..|k|] == k;
  }

  /** Element `j` of row `i` of an `n x d` grid comes before the end of the grid. */
  lemma RowOffset(i: nat, n: nat, d: nat, j: nat)
    requires i < n && j < d
    ensures 0 <= i * d && i * d + j < n * d
  {
    assert (i + 1) * d == i * d + d;
    assert (i + 1) * d <= n * d;
  }

  lemma {:induction false} FlattenLength<T>(xss: seq<seq<T>>, d: nat)
    requires IsMatrix(xss, d)
    ensures |Flatten(xss)| == |xss| * d
    decreases |xss|
  {
    var n := |xss|;
    if n > 0 {
      FlattenLength(xss[..n - 1], d);
      assert n * d == (n - 1) * d + d;
    }
  }

  /** Flattening rows of `d` elements is row-major order: element `(i, j)` lands at `i * d + j`. */
  lemma {:induction false} FlattenAt<T>(xss: seq<seq<T>>, d: nat, i: nat, j: nat)
    requires IsMatrix(xss, d) && i < |xss| && j < d
    ensures 0 <= i * d + j < |Flatten(xss)| && Flatten(xss)[i * d + j] == xss[i][j]
    decreases |xss|
  {
    var n := |xss|;
    var init := xss[..n - 1];
    FlattenLength(xss, d);
    FlattenLength(init, d);
    RowOffset(i, n, d, j);
    if i < n - 1 {
      FlattenAt(init, d, i, j);
      RowOffset(i, n - 1, d, j);
    } else {
      assert i * d == |Flatten(init)|;
    }
  }

  /** A formatted number is a single word whatever layout characters surround it. */
  lemma SplitNumeral(s: string, seps: set<char>)
    requires IsNumeral(s) && seps <= Layout
    ensures Split(s, seps) == [s]
  {
    SplitWord(s, seps);
  }

  /** Splitting the formatted numbers one by one gives them back. */
  lemma {:induction false} SplitEachNumerals<V(!new)>(fmt: V -> string, xs: seq<V>, seps: set<char>)
    requires FmtOk(fmt) && seps <= Layout
    ensures SplitEach(MapFmt(fmt, xs), seps) == MapFmt(fmt, xs)
    decreases |xs|
  {
    var n := |xs|;
    if n > 0 {
      var ys := MapFmt(fmt, xs);
      assert ys[..n - 1] == MapFmt(fmt, xs[..n - 1]);
      SplitEachNumerals(fmt, xs[..n - 1], seps);
      SplitNumeral(fmt(xs[n - 1]), seps);
    }
  }
}
