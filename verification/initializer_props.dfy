/** What the C initializer text of compare.py means: the formatted numbers it carries, in which
    order, how its braces nest, and where each (kernel, channel) block sits. */
module InitializerProps {
  import opened Text
  import opened Words
  import opened Braces
  import opened Tensors
  import opened Initializer

  // ---------------------------------------------------------------- the numbers, in order

  /** The punctuation of the brace lists is all separators. */
  lemma PunctuationSeps()
    ensures AllSeps("{", BraceSeps) && AllSeps("}", BraceSeps) && AllSeps(", ", BraceSeps)
    ensures AllSeps(",\n", BraceSeps) && AllSeps(",\n\n", BraceSeps) && AllSeps("};", BraceSeps)
    ensures AllSeps("{ ", BraceSeps) && AllSeps(" };", BraceSeps) && AllSeps(",\n ", BraceSeps)
    ensures BraceSeps <= Layout
  {
    assert forall i :: 0 <= i < 3 ==> " };"[i] in BraceSeps;
  }

  /** A value list reads back as the formatted values. */
  lemma ValueListWords<V(!new)>(fmt: V -> string, r: seq<V>)
    requires FmtOk(fmt)
    ensures Split(ValueList(fmt, r), BraceSeps) == MapFmt(fmt, r)
  {
    PunctuationSeps();
    SplitJoin(MapFmt(fmt, r), ", ", BraceSeps);
    SplitEachNumerals(fmt, r, BraceSeps);
  }

  lemma RowTextWords<V(!new)>(fmt: V -> string, r: seq<V>)
    requires FmtOk(fmt)
    ensures Split(RowText(fmt, r), BraceSeps) == MapFmt(fmt, r)
  {
    PunctuationSeps();
    SplitWrapped("{", ValueList(fmt, r), "}", BraceSeps);
    ValueListWords(fmt, r);
  }

  /** The row lists of a block, split one by one, give the block's values row after row. */
  lemma {:induction false} RowTextsWords<V(!new)>(fmt: V -> string, m: seq<seq<V>>)
    requires FmtOk(fmt)
    ensures SplitEach(RowTexts(fmt, m), BraceSeps) == MapFmt(fmt, Flatten(m))
    decreases |m|
  {
    var n := |m|;
    if n > 0 {
      var init, last := m[..n - 1], m[n - 1];
      SnocInit(RowTexts(fmt, init), RowText(fmt, last));
      RowTextsWords(fmt, init);
      RowTextWords(fmt, last);
      MapFmtAppend(fmt, Flatten(init), last);
    }
  }

  lemma RowsTextWords<V(!new)>(fmt: V -> string, m: seq<seq<V>>)
    requires FmtOk(fmt)
    ensures Split(RowsText(fmt, m), BraceSeps) == MapFmt(fmt, Flatten(m))
  {
    PunctuationSeps();
    SplitJoin(RowTexts(fmt, m), ",\n", BraceSeps);
    RowTextsWords(fmt, m);
  }

  lemma Block3dWords<V(!new)>(fmt: V -> string, m: seq<seq<V>>)
    requires FmtOk(fmt)
    ensures Split(Block3d(fmt, m), BraceSeps) == MapFmt(fmt, Flatten(m))
  {
    PunctuationSeps();
    SplitWrapped("{", RowsText(fmt, m), "}", BraceSeps);
    RowsTextWords(fmt, m);
  }

  lemma {:induction false} Blocks3dWords<V(!new)>(fmt: V -> string, bs: seq<seq<seq<V>>>)
    requires FmtOk(fmt)
    ensures SplitEach(Blocks3d(fmt, bs), BraceSeps) == MapFmt(fmt, Flatten(Flatten(bs)))
    decreases |bs|
  {
    var n := |bs|;
    if n > 0 {
      var init, last := bs[..n - 1], bs[n - 1];
      SnocInit(Blocks3d(fmt, init), Block3d(fmt, last));
      Blocks3dWords(fmt, init);
      Block3dWords(fmt, last);
      FlattenAppend(Flatten(init), last);
      SnocInit(init, last);
      MapFmtAppend(fmt, Flatten(Flatten(init)), Flatten(last));
    }
  }

  /** The `3d` text carries every element of the weight exactly once, formatted, in row-major
      order (kernel, channel, row, column), and nothing else. */
  lemma Weights3dWords<V(!new)>(fmt: V -> string, w: seq<seq<seq<seq<V>>>>)
    requires FmtOk(fmt)
    ensures Split(Weights3dText(fmt, w), BraceSeps) == MapFmt(fmt, Flatten(Flatten(Flatten(w))))
  {
    PunctuationSeps();
    var j := Join(Blocks3d(fmt, Flatten(w)), ",\n\n");
    SplitWrapped("{", j, "};", BraceSeps);
    SplitJoin(Blocks3d(fmt, Flatten(w)), ",\n\n", BraceSeps);
    Blocks3dWords(fmt, Flatten(w));
  }

  /** The bias text carries the formatted bias values, in order. */
  lemma BiasWords<V(!new)>(fmt: V -> string, b: seq<V>)
    requires FmtOk(fmt)
    ensures Split(BiasText(fmt, b), BraceSeps) == MapFmt(fmt, b)
  {
    PunctuationSeps();
    SplitWrapped("{ ", Join(MapFmt(fmt, b), ",\n "), " };", BraceSeps);
    SplitJoin(MapFmt(fmt, b), ",\n ", BraceSeps);
    SplitEachNumerals(fmt, b, BraceSeps);
  }

  // ---------------------------------------------------------------- brace nesting

  /** A formatted number holds no brace. */
  lemma NumeralsBraceFree<V(!new)>(fmt: V -> string, r: seq<V>)
    requires FmtOk(fmt)
    ensures forall k :: 0 <= k < |r| ==> BraceFree(MapFmt(fmt, r)[k])
  {
    forall k | 0 <= k < |r|
      ensures BraceFree(MapFmt(fmt, r)[k])
    {
      assert IsNumeral(fmt(r[k]));
    }
  }

  lemma RowTextBalanced<V(!new)>(fmt: V -> string, r: seq<V>)
    requires FmtOk(fmt)
    ensures Balanced(RowText(fmt, r))
  {
    NumeralsBraceFree(fmt, r);
    BraceFreeJoin(MapFmt(fmt, r), ", ");
    BraceFreeBalanced(ValueList(fmt, r));
    BalancedWrap(ValueList(fmt, r));
  }

  lemma Block3dBalanced<V(!new)>(fmt: V -> string, m: seq<seq<V>>)
    requires FmtOk(fmt)
    ensures Balanced(Block3d(fmt, m))
  {
    forall k | 0 <= k < |m|
      ensures Balanced(RowTexts(fmt, m)[k])
    {
      RowTextBalanced(fmt, m[k]);
    }
    BalancedJoin(RowTexts(fmt, m), ",\n");
    BalancedWrap(RowsText(fmt, m));
  }

  /** `{` + `j` + `};` is the brace pair around `j`, then `;`. */
  lemma CloseWithSemicolon(j: string)
    ensures "{" + j + "};" == ("{" + j + "}") + ";"
  {
    assert "};" == "}" + ";";
    AppendAssoc("{" + j, "}", ";");
  }

  /** Every brace the `3d` text opens is closed, and none is closed before it is opened. */
  lemma Weights3dBalanced<V(!new)>(fmt: V -> string, w: seq<seq<seq<seq<V>>>>)
    requires FmtOk(fmt)
    ensures Balanced(Weights3dText(fmt, w))
  {
    var bs := Flatten(w);
    forall b | 0 <= b < |bs|
      ensures Balanced(Blocks3d(fmt, bs)[b])
    {
      Block3dBalanced(fmt, bs[b]);
    }
    var j := Join(Blocks3d(fmt, bs), ",\n\n");
    BalancedJoin(Blocks3d(fmt, bs), ",\n\n");
    BalancedWrap(j);
    BraceFreeBalanced(";");
    BalancedAppend("{" + j + "}", ";");
    CloseWithSemicolon(j);
  }

  /** The bias text as a brace pair around its values, then `;`. */
  lemma BiasShape(j: string)
    ensures "{ " + j + " };" == ("{" + (" " + j + " ") + "}") + ";"
  {
    assert "{ " == "{" + " ";
    assert " };" == " " + "}" + ";";
  }

  lemma BiasBalanced<V(!new)>(fmt: V -> string, b: seq<V>)
    requires FmtOk(fmt)
    ensures Balanced(BiasText(fmt, b))
  {
    var j := Join(MapFmt(fmt, b), ",\n ");
    NumeralsBraceFree(fmt, b);
    BraceFreeJoin(MapFmt(fmt, b), ",\n ");
    BraceFreeAppend(" ", j);
    BraceFreeAppend(" " + j, " ");
    BraceFreeBalanced(" " + j + " ");
    BalancedWrap(" " + j + " ");
    BraceFreeBalanced(";");
    BalancedAppend("{" + (" " + j + " ") + "}", ";");
    BiasShape(j);
  }

  /** The text written when the weight has no block, or blocks without rows, closes more braces
      than it opens: it is not a valid initializer. */
  lemma DegenerateUnbalanced(n: nat)
    ensures !Balanced(Repeat("},\n", n) + "}};")
    ensures !Balanced("};")
  {
    assert Depth("}") == -1;
    assert "};"[..1] == "}";
    var t := Repeat("},\n", n) + "}};";
    RepeatDepth(n);
    DepthAppend(Repeat("},\n", n), "}};");
    assert Depth("}};") == -2 by {
      assert "}};"[..2] == "}}";
      assert "}}"[..1] == "}";
    }
  }

  lemma {:induction false} RepeatDepth(n: nat)
    ensures Depth(Repeat("},\n", n)) == -(n as int)
  {
    if n > 0 {
      RepeatDepth(n - 1);
      DepthAppend(Repeat("},\n", n - 1), "},\n");
      assert Depth("},\n") == -1 by {
        assert "},\n"[..2] == "},";
        assert "},"[..1] == "}";
      }
    }
  }

  // ---------------------------------------------------------------- where each block sits

  /** A weight of shape `n x d1 x d2 x d3` has `n * d1` blocks in its `3d` text. */
  lemma Weights3dBlockCount<V>(fmt: V -> string, w: seq<seq<seq<seq<V>>>>, d1: nat, d2: nat, d3: nat)
    requires Shape4(w, d1, d2, d3)
    ensures |Blocks3d(fmt, Flatten(w))| == |w| * d1
  {
    BlockCount(w, d1, d2, d3);
  }

  lemma Blocks3dAt<V>(fmt: V -> string, bs: seq<seq<seq<V>>>, p: nat)
    requires p < |bs|
    ensures Blocks3d(fmt, bs)[p] == Block3d(fmt, bs[p])
  {
  }

  /** Block `(i, j)` is the `i * d1 + j`-th block of the `3d` text: kernels outer, channels
      inner. */
  lemma Weights3dBlockAt<V>(fmt: V -> string, w: seq<seq<seq<seq<V>>>>, d1: nat, i: nat, j: nat)
    requires IsMatrix(w, d1) && i < |w| && j < d1
    ensures 0 <= i * d1 + j < |Blocks3d(fmt, Flatten(w))|
      && Blocks3d(fmt, Flatten(w))[i * d1 + j] == Block3d(fmt, w[i][j])
  {
    FlattenAt(w, d1, i, j);
    Blocks3dAt(fmt, Flatten(w), i * d1 + j);
  }

  /** Kernel `i`'s list in the grid of `2d` sections. */
  lemma {:induction false} SectionGridAt<V>(fmt: V -> string, w: seq<seq<seq<seq<V>>>>, n: nat, i: nat)
    requires n <= |w| && i < n
    ensures SectionGrid(fmt, w, n)[i] == KernelSections(fmt, w[i], i, |w|, |w[i]|)
    decreases n
  {
    var g := SectionGrid(fmt, w, n - 1);
    var last := KernelSections(fmt, w[n - 1], n - 1, |w|, |w[n - 1]|);
    assert SectionGrid(fmt, w, n) == g + [last];
    if i < n - 1 {
      SectionGridAt(fmt, w, n - 1, i);
      SnocAt(g, last, i);
    } else {
      SnocInit(g, last);
    }
  }

  /** Channel `c`'s section in kernel `i`'s list. */
  lemma {:induction false} KernelSectionsAt<V>(fmt: V -> string, k: seq<seq<seq<V>>>, i: nat, n0: nat, j: nat, c: nat)
    requires j <= |k| && c < j
    ensures KernelSections(fmt, k, i, n0, j)[c] == Section2d(fmt, n0, |k|, i, c, k[c])
    decreases j
  {
    if c < j - 1 {
      KernelSectionsAt(fmt, k, i, n0, j - 1, c);
    }
  }

  /** Every kernel contributes `d1` sections. */
  lemma SectionGridShape<V>(fmt: V -> string, w: seq<seq<seq<seq<V>>>>, d1: nat)
    requires IsMatrix(w, d1)
    ensures IsMatrix(SectionGrid(fmt, w, |w|), d1)
  {
    forall i | 0 <= i < |w|
      ensures |SectionGrid(fmt, w, |w|)[i]| == d1
    {
      SectionGridAt(fmt, w, |w|, i);
    }
  }

  /** The `2d` text has `n * d1` sections; section `i * d1 + j` is the header
      `kernel i+1/n channel j+1/d1` and block `(i, j)` as an initializer of its own. */
  lemma Weights2dSectionAt<V>(fmt: V -> string, w: seq<seq<seq<seq<V>>>>, d1: nat, i: nat, j: nat)
    requires IsMatrix(w, d1) && i < |w| && j < d1
    ensures |Flatten(SectionGrid(fmt, w, |w|))| == |w| * d1
    ensures 0 <= i * d1 + j < |w| * d1
      && Flatten(SectionGrid(fmt, w, |w|))[i * d1 + j] == Header(i, |w|, j, d1) + Block2d(fmt, w[i][j])
  {
    var g := SectionGrid(fmt, w, |w|);
    SectionGridShape(fmt, w, d1);
    FlattenLength(g, d1);
    FlattenAt(g, d1, i, j);
    SectionGridAt(fmt, w, |w|, i);
    KernelSectionsAt(fmt, w[i], i, |w|, |w[i]|, j);
  }

  /** A `2d` block with rows is the `3d` block of the same channel, closed as an initializer of
      its own. */
  lemma Block2dIs3d<V>(fmt: V -> string, m: seq<seq<V>>)
    requires |m| > 0
    ensures Block2d(fmt, m) == Block3d(fmt, m) + ";\n\n"
  {
    assert "};\n\n" == "}" + ";\n\n";
    AppendAssoc("{" + RowsText(fmt, m), "}", ";\n\n");
  }
}
