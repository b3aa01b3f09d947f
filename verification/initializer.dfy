/** The C initializer text `write_caffe_files` writes for rank-4 weights (the single nested `3d`
    form and the per-(kernel, channel) `2d` form) and for biases.

    The reference functions say what the text is: brace lists joined by separators. The methods
    follow the loops of compare.py, trailing separator then `outstring[:-2]` / `[:-3]` trim
    included, and are proved to produce the reference text. */
module Initializer {
  import opened Text
  import opened Words
  import opened Braces
  import opened Tensors

  // ---------------------------------------------------------------- reference text

  /** `v0, v1, ..., vn`: the formatted elements separated by comma and space. */
  function ValueList<V>(fmt: V -> string, r: seq<V>): string
  {
    Join(MapFmt(fmt, r), ", ")
  }

  /** One innermost row as a brace list `{v0, v1, ...}`. */
  function RowText<V>(fmt: V -> string, r: seq<V>): string
  {
    "{" + ValueList(fmt, r) + "}"
  }

  function RowTexts<V>(fmt: V -> string, m: seq<seq<V>>): (ts: seq<string>)
    ensures |ts| == |m|
    ensures forall k {:trigger ts[k]} :: 0 <= k < |m| ==> ts[k] == RowText(fmt, m[k])
  {
    if |m| == 0 then [] else RowTexts(fmt, m[..|m| - 1]) + [RowText(fmt, m[|m| - 1])]
  }

  lemma RowTextsSnoc<V>(fmt: V -> string, m: seq<seq<V>>, k: nat)
    requires k < |m|
    ensures RowTexts(fmt, m[..k + 1]) == RowTexts(fmt, m[..k]) + [RowText(fmt, m[k])]
  {
    assert m[..k + 1][..k] == m[..k];
  }

  /** The rows of one (kernel, channel) block, one brace list per line. */
  function RowsText<V>(fmt: V -> string, m: seq<seq<V>>): string
  {
    Join(RowTexts(fmt, m), ",\n")
  }

  /** One (kernel, channel) block of the `3d` form. */
  function Block3d<V>(fmt: V -> string, m: seq<seq<V>>): string
  {
    "{" + RowsText(fmt, m) + "}"
  }

  function Blocks3d<V>(fmt: V -> string, bs: seq<seq<seq<V>>>): (ts: seq<string>)
    ensures |ts| == |bs|
    ensures forall b {:trigger ts[b]} :: 0 <= b < |bs| ==> ts[b] == Block3d(fmt, bs[b])
  {
    if |bs| == 0 then [] else Blocks3d(fmt, bs[..|bs| - 1]) + [Block3d(fmt, bs[|bs| - 1])]
  }

  /** The `3d` form of a weight with at least one block, each holding at least one row: the
      blocks in (kernel, channel) row-major order, separated by a blank line, inside one brace
      pair and closed by `;`. */
  function Weights3dText<V>(fmt: V -> string, w: seq<seq<seq<seq<V>>>>): string
  {
    "{" + Join(Blocks3d(fmt, Flatten(w)), ",\n\n") + "};"
  }

  /** The `3d` text for every shape the loops accept. With no block at all the trims eat the
      opening brace and leave `};`; with blocks of zero rows each block's trim eats the brace just
      opened and the newline before it. */
  function Weights3d<V>(fmt: V -> string, w: seq<seq<seq<seq<V>>>>, d1: nat, d2: nat): string
  {
    if |w| == 0 || d1 == 0 then "};"
    else if d2 == 0 then Repeat("},\n", |w| * d1 - 1) + "}};"
    else Weights3dText(fmt, w)
  }

  /** `kernel i+1/N channel j+1/M`, the line before each block of the `2d` form. */
  function Header(i: nat, n0: nat, j: nat, n1: nat): string
  {
    "kernel " + Str(i + 1) + "/" + Str(n0) + " channel " + Str(j + 1) + "/" + Str(n1) + "\n"
  }

  /** One block of the `2d` form, an initializer of its own. */
  function Block2d<V>(fmt: V -> string, m: seq<seq<V>>): string
  {
    if |m| == 0 then "};\n\n" else "{" + RowsText(fmt, m) + "};\n\n"
  }

  /** Channel `j` of kernel `i`, out of `n0` kernels of `n1` channels: header, then block. */
  function Section2d<V>(fmt: V -> string, n0: nat, n1: nat, i: nat, j: nat, m: seq<seq<V>>): string
  {
    Header(i, n0, j, n1) + Block2d(fmt, m)
  }

  /** The sections of channels `0..j-1` of kernel `k`, kernel `i` out of `n0`. */
  function KernelSections<V>(fmt: V -> string, k: seq<seq<seq<V>>>, i: nat, n0: nat, j: nat): (ss: seq<string>)
    requires j <= |k|
    ensures |ss| == j
  {
    if j == 0 then [] else KernelSections(fmt, k, i, n0, j - 1) + [Section2d(fmt, n0, |k|, i, j - 1, k[j - 1])]
  }

  /** The sections of kernels `0..i-1`, one list per kernel. */
  function SectionGrid<V>(fmt: V -> string, w: seq<seq<seq<seq<V>>>>, i: nat): (g: seq<seq<string>>)
    requires i <= |w|
    ensures |g| == i
  {
    if i == 0 then [] else SectionGrid(fmt, w, i - 1) + [KernelSections(fmt, w[i - 1], i - 1, |w|, |w[i - 1]|)]
  }

  /** The `2d` form: every section, kernels outer and channels inner. */
  function Weights2d<V>(fmt: V -> string, w: seq<seq<seq<seq<V>>>>): string
  {
    Concat(Flatten(SectionGrid(fmt, w, |w|)))
  }

  /** The bias list: `{ v0,\n v1, ... };`. */
  function BiasText<V>(fmt: V -> string, b: seq<V>): string
  {
    "{ " + Join(MapFmt(fmt, b), ",\n ") + " };"
  }

  // ---------------------------------------------------------------- the loops of compare.py

  /** The innermost loop: the first element, then `", "` and the next one. */
  method RenderValues<V>(fmt: V -> string, r: seq<V>) returns (s: string)
    requires |r| > 0
    ensures s == ValueList(fmt, r)
  {
    s := fmt(r[0]);
    var l := 1;
    while l < |r|
      invariant 1 <= l <= |r|
      invariant s == ValueList(fmt, r[..l])
    {
      MapFmtSnoc(fmt, r, l);
      JoinSnoc(MapFmt(fmt, r[..l]), fmt(r[l]), ", ");
      s := s + ", " + fmt(r[l]);
      l := l + 1;
    }
    TakeAll(r);
  }

  /** The loop over the rows of one block: `{...},\n` per row. */
  method RenderRows<V>(fmt: V -> string, m: seq<seq<V>>) returns (s: string)
    requires forall k :: 0 <= k < |m| ==> |m[k]| > 0
    ensures s == RowLines(fmt, m)
  {
    s := "";
    var k := 0;
    while k < |m|
      invariant 0 <= k <= |m|
      invariant k == 0 ==> s == ""
      invariant k > 0 ==> s == RowsText(fmt, m[..k]) + ",\n"
    {
      var vals := RenderValues(fmt, m[k]);
      RowTextsSnoc(fmt, m, k);
      if k > 0 {
        JoinSnoc(RowTexts(fmt, m[..k]), RowText(fmt, m[k]), ",\n");
      }
      s := s + "{" + vals + "},\n";
      k := k + 1;
    }
    TakeAll(m);
  }

  /** What the row loop of one block appends after the block's opening brace. */
  function RowLines<V>(fmt: V -> string, m: seq<seq<V>>): string
  {
    if |m| == 0 then "" else RowsText(fmt, m) + ",\n"
  }

  /** The text the `3d` loops hold after the blocks `bs`, pass by pass: open a brace, append the
      rows, cut two characters, append `},\n\n`. */
  ghost function Partial3d<V>(fmt: V -> string, bs: seq<seq<seq<V>>>): string
  {
    if |bs| == 0 then "{"
    else DropLast(Partial3d(fmt, bs[..|bs| - 1]) + "{" + RowLines(fmt, bs[|bs| - 1]), 2) + "},\n\n"
  }

  /** The trim after a block's rows, as plain text: `{` + rows + `,\n`, minus two characters,
      plus `},\n\n`, closes the block. */
  lemma TrimRows(pre: string, rows: string)
    ensures DropLast(pre + "{" + (rows + ",\n"), 2) + "},\n\n" == pre + ("{" + rows + "}") + ",\n\n"
  {
    var t := pre + "{" + rows;
    assert pre + "{" + (rows + ",\n") == t + ",\n";
    DropLastAppend(t, ",\n");
  }

  /** The first pass over a block with rows. */
  lemma Partial3dFirst<V>(fmt: V -> string, m: seq<seq<V>>)
    requires |m| > 0
    ensures Partial3d(fmt, [m]) == "{" + Join(Blocks3d(fmt, [m]), ",\n\n") + ",\n\n"
  {
    assert [m][..0] == [];
    assert Partial3d(fmt, [m]) == DropLast("{" + "{" + (RowsText(fmt, m) + ",\n"), 2) + "},\n\n";
    TrimRows("{", RowsText(fmt, m));
    assert Join(Blocks3d(fmt, [m]), ",\n\n") == Block3d(fmt, m);
  }

  /** The same trim as plain text, when blocks `j` are already done. */
  lemma TrimRowsAfter(j: string, rows: string)
    ensures DropLast("{" + j + ",\n\n" + "{" + (rows + ",\n"), 2) + "},\n\n" == "{" + (j + ",\n\n" + ("{" + rows + "}")) + ",\n\n"
  {
    var t := "{" + j + ",\n\n" + "{" + rows;
    assert "{" + j + ",\n\n" + "{" + (rows + ",\n") == t + ",\n";
    DropLastAppend(t, ",\n");
  }

  /** A later pass over a block with rows appends the block after a `,\n\n`. */
  lemma Partial3dNext<V>(fmt: V -> string, bs: seq<seq<seq<V>>>)
    requires |bs| > 1 && |bs[|bs| - 1]| > 0
    requires Partial3d(fmt, bs[..|bs| - 1]) == "{" + Join(Blocks3d(fmt, bs[..|bs| - 1]), ",\n\n") + ",\n\n"
    ensures Partial3d(fmt, bs) == "{" + Join(Blocks3d(fmt, bs), ",\n\n") + ",\n\n"
  {
    var init, m := bs[..|bs| - 1], bs[|bs| - 1];
    var j := Join(Blocks3d(fmt, init), ",\n\n");
    var rows := RowsText(fmt, m);
    TrimRowsAfter(j, rows);
    assert Blocks3d(fmt, bs) == Blocks3d(fmt, init) + [Block3d(fmt, m)];
    JoinSnoc(Blocks3d(fmt, init), Block3d(fmt, m), ",\n\n");
  }

  /** When every block holds a row, the passes so far leave an opening brace, the finished blocks
      joined by `,\n\n`, and one more `,\n\n`. */
  lemma {:induction false} Partial3dBlocks<V>(fmt: V -> string, bs: seq<seq<seq<V>>>)
    requires |bs| > 0
    requires forall b :: 0 <= b < |bs| ==> |bs[b]| > 0
    ensures Partial3d(fmt, bs) == "{" + Join(Blocks3d(fmt, bs), ",\n\n") + ",\n\n"
    decreases |bs|
  {
    if |bs| == 1 {
      assert bs == [bs[0]];
      Partial3dFirst(fmt, bs[0]);
    } else {
      Partial3dBlocks(fmt, bs[..|bs| - 1]);
      Partial3dNext(fmt, bs);
    }
  }

  /** When no block holds a row, each pass cuts the brace it opened and the character before it,
      so the text is `},\n` repeated, then `},\n\n`. */
  lemma {:induction false} Partial3dEmptyBlocks<V>(fmt: V -> string, bs: seq<seq<seq<V>>>)
    requires |bs| > 0
    requires forall b :: 0 <= b < |bs| ==> |bs[b]| == 0
    ensures Partial3d(fmt, bs) == Repeat("},\n", |bs| - 1) + "},\n\n"
    decreases |bs|
  {
    var n := |bs|;
    if n > 1 {
      Partial3dEmptyBlocks(fmt, bs[..n - 1]);
      var r := Repeat("},\n", n - 2);
      assert Partial3d(fmt, bs[..n - 1]) + "{" + "" == r + "},\n" + "\n{";
      DropLastAppend(r + "},\n", "\n{");
    }
  }

  /** Every block holds at least one row. */
  predicate AllHoldRows<V>(bs: seq<seq<seq<V>>>)
  {
    forall b :: 0 <= b < |bs| ==> |bs[b]| > 0
  }

  /** No block holds a row. */
  predicate NoneHoldRows<V>(bs: seq<seq<seq<V>>>)
  {
    forall b :: 0 <= b < |bs| ==> |bs[b]| == 0
  }

  /** What the passes so far leave: when every block holds a row, an opening brace, the blocks
      joined by `,\n\n`, and one more `,\n\n`; when no block holds a row, `},\n` for every
      block but the last, then `},\n\n`. */
  lemma Partial3dMeaning<V>(fmt: V -> string, bs: seq<seq<seq<V>>>)
    ensures |bs| > 0 && AllHoldRows(bs) ==> Partial3d(fmt, bs) == "{" + Join(Blocks3d(fmt, bs), ",\n\n") + ",\n\n"
    ensures |bs| > 0 && NoneHoldRows(bs) ==> Partial3d(fmt, bs) == Repeat("},\n", |bs| - 1) + "},\n\n"
  {
    if |bs| > 0 && AllHoldRows(bs) {
      Partial3dBlocks(fmt, bs);
    }
    if |bs| > 0 && NoneHoldRows(bs) {
      Partial3dEmptyBlocks(fmt, bs);
    }
  }

  /** The final trim and `};` after blocks that hold rows. */
  lemma Close3d<V>(fmt: V -> string, bs: seq<seq<seq<V>>>)
    ensures DropLast("{" + Join(Blocks3d(fmt, bs), ",\n\n") + ",\n\n", 3) + "};" == "{" + Join(Blocks3d(fmt, bs), ",\n\n") + "};"
  {
    DropLastAppend("{" + Join(Blocks3d(fmt, bs), ",\n\n"), ",\n\n");
  }

  /** The final trim and `};` after blocks that hold no row. */
  lemma CloseEmptyBlocks(b: nat)
    requires b > 0
    ensures DropLast(Repeat("},\n", b - 1) + "},\n\n", 3) + "};" == Repeat("},\n", b - 1) + "}};"
  {
    DropLastAppend(Repeat("},\n", b - 1) + "}", ",\n\n");
    assert Repeat("},\n", b - 1) + "},\n\n" == Repeat("},\n", b - 1) + "}" + ",\n\n";
  }

  /** The blocks of kernel `i` of a weight of shape `n x d1 x d2 x d3`. */
  lemma KernelShape<V>(w: seq<seq<seq<seq<V>>>>, d1: nat, d2: nat, d3: nat, i: nat)
    requires Shape4(w, d1, d2, d3) && i < |w|
    ensures |w[i]| == d1
    ensures forall j :: 0 <= j < |w[i]| ==> |w[i][j]| == d2 && IsMatrix(w[i][j], d3)
  {
  }

  /** A weight of `n x d1` blocks of `d2` rows has `n * d1` of them, and at least one when
      neither count is zero. */
  lemma BlockCount<V>(w: seq<seq<seq<seq<V>>>>, d1: nat, d2: nat, d3: nat)
    requires Shape4(w, d1, d2, d3)
    ensures |Flatten(w)| == |w| * d1
    ensures |w| > 0 && d1 > 0 ==> |Flatten(w)| > 0
    ensures forall b :: 0 <= b < |Flatten(w)| ==> |Flatten(w)[b]| == d2 && IsMatrix(Flatten(w)[b], d3)
  {
    assert IsMatrix(w, d1);
    FlattenLength(w, d1);
    if |w| > 0 && d1 > 0 {
      assert |w| * d1 >= d1;
    }
    FlattenShape(w, d1, d2, d3);
  }

  /** Every block of a weight, flattened, keeps its shape. */
  lemma {:induction false} FlattenShape<V>(w: seq<seq<seq<seq<V>>>>, d1: nat, d2: nat, d3: nat)
    requires Shape4(w, d1, d2, d3)
    ensures forall b :: 0 <= b < |Flatten(w)| ==> |Flatten(w)[b]| == d2 && IsMatrix(Flatten(w)[b], d3)
    decreases |w|
  {
    if |w| > 0 {
      var init := w[..|w| - 1];
      FlattenShape(init, d1, d2, d3);
      KernelShape(w, d1, d2, d3, |w| - 1);
    }
  }

  /** The final trim and `};` when the weight has no block: the trim eats the opening brace. */
  lemma Close3dNoBlocks<V>(fmt: V -> string, w: seq<seq<seq<seq<V>>>>, d1: nat)
    requires IsMatrix(w, d1) && (|w| == 0 || d1 == 0)
    ensures DropLast(Partial3d(fmt, Flatten(w)), 3) + "};" == "};"
  {
    if |w| > 0 {
      FlattenLength(w, 0);
    }
    assert |Flatten(w)| == 0;
  }

  /** The final trim and `};` when the weight has blocks but none holds a row. */
  lemma Close3dEmptyBlocks<V>(fmt: V -> string, w: seq<seq<seq<seq<V>>>>, d1: nat, d3: nat)
    requires Shape4(w, d1, 0, d3) && |w| > 0 && d1 > 0
    ensures DropLast(Partial3d(fmt, Flatten(w)), 3) + "};" == Repeat("},\n", |w| * d1 - 1) + "}};"
  {
    BlockCount(w, d1, 0, d3);
    Partial3dEmptyBlocks(fmt, Flatten(w));
    CloseEmptyBlocks(|Flatten(w)|);
  }

  /** The final trim and `};` when every block holds rows. */
  lemma Close3dFull<V>(fmt: V -> string, w: seq<seq<seq<seq<V>>>>, d1: nat, d2: nat, d3: nat)
    requires Shape4(w, d1, d2, d3) && |w| > 0 && d1 > 0 && d2 > 0
    ensures DropLast(Partial3d(fmt, Flatten(w)), 3) + "};" == Weights3dText(fmt, w)
  {
    BlockCount(w, d1, d2, d3);
    Partial3dBlocks(fmt, Flatten(w));
    Close3d(fmt, Flatten(w));
  }

  /** One pass of the channel loop of the `3d` form: open a brace, append the rows, cut two
      characters, append `},\n\n`. */
  lemma Kernel3dStep<V>(fmt: V -> string, done: seq<seq<seq<V>>>, k: seq<seq<seq<V>>>, j: nat)
    requires j < |k|
    ensures DropLast(Partial3d(fmt, done + k[..j]) + "{" + RowLines(fmt, k[j]), 2) + "},\n\n"
            == Partial3d(fmt, done + k[..j + 1])
  {
    PrefixSnoc(done, k, j);
    assert (done + k[..j + 1])[..|done| + j] == done + k[..j];
  }

  /** The channel loop of the `3d` form over the blocks `k` of one kernel, one block at a time;
      what the passes leave is stated by `Partial3dMeaning`. */
  method RenderKernel3d<V>(fmt: V -> string, s0: string, k: seq<seq<seq<V>>>, ghost done: seq<seq<seq<V>>>)
    returns (s: string)
    requires forall j, r :: 0 <= j < |k| && 0 <= r < |k[j]| ==> |k[j][r]| > 0
    requires s0 == Partial3d(fmt, done)
    ensures s == Partial3d(fmt, done + k)
  {
    s := s0;
    var j := 0;
    PrefixNone(done, k);
    while j < |k|
      invariant 0 <= j <= |k|
      invariant s == Partial3d(fmt, done + k[..j])
    {
      Kernel3dStep(fmt, done, k, j);
      assert forall r :: 0 <= r < |k[j]| ==> |k[j][r]| > 0;
      var rows := RenderRows(fmt, k[j]);
      s := s + "{" + rows;
      s := DropLast(s, 2);
      s := s + "},\n\n";
      j := j + 1;
    }
    PrefixAll(done, k);
  }

  /** The rows of every block of kernel `i` are non-empty when the weight's rows are. */
  lemma KernelRows<V>(w: seq<seq<seq<seq<V>>>>, d1: nat, d2: nat, d3: nat, i: nat)
    requires Shape4(w, d1, d2, d3) && i < |w| && (d1 == 0 || d2 == 0 || d3 > 0)
    ensures forall j, r :: 0 <= j < |w[i]| && 0 <= r < |w[i][j]| ==> |w[i][j][r]| > 0
  {
  }

  /** The `3d` branch for a rank-4 weight (compare.py lines 232-247). */
  method RenderWeights3d<V>(fmt: V -> string, w: seq<seq<seq<seq<V>>>>, ghost d1: nat, ghost d2: nat, ghost d3: nat)
    returns (s: string)
    requires Shape4(w, d1, d2, d3)
    requires |w| == 0 || d1 == 0 || d2 == 0 || d3 > 0
    ensures |w| == 0 || d1 == 0 ==> s == "};"
    ensures |w| > 0 && d1 > 0 && d2 == 0 ==> s == Repeat("},\n", |w| * d1 - 1) + "}};"
    ensures |w| > 0 && d1 > 0 && d2 > 0 ==> s == Weights3dText(fmt, w)
  {
    s := "{";
    var i := 0;
    while i < |w|
      invariant 0 <= i <= |w|
      invariant s == Partial3d(fmt, Flatten(w[..i]))
    {
      KernelRows(w, d1, d2, d3, i);
      s := RenderKernel3d(fmt, s, w[i], Flatten(w[..i]));
      FlattenPrefix(w, i);
      i := i + 1;
    }
    assert w[..i] == w;
    if |w| == 0 || d1 == 0 {
      assert IsMatrix(w, d1);
      Close3dNoBlocks(fmt, w, d1);
    } else if d2 == 0 {
      Close3dEmptyBlocks(fmt, w, d1, d3);
    } else {
      Close3dFull(fmt, w, d1, d2, d3);
    }
    s := DropLast(s, 3);
    s := s + "};";
  }

  /** The trim of a `2d` block: `{` + rows, minus two characters, plus `};\n\n`. */
  lemma TrimBlock2d<V>(fmt: V -> string, m: seq<seq<V>>)
    ensures DropLast("{" + RowLines(fmt, m), 2) + "};\n\n" == Block2d(fmt, m)
  {
    if |m| > 0 {
      var t := "{" + RowsText(fmt, m);
      assert "{" + (RowsText(fmt, m) + ",\n") == t + ",\n";
      DropLastAppend(t, ",\n");
    }
  }

  /** Appending one more section to what the `2d` loops wrote. */
  lemma ConcatSnoc(pre: string, ss: seq<string>, h: string, b: string)
    ensures pre + Concat(ss + [h + b]) == pre + Concat(ss) + h + b
  {
    assert (ss + [h + b])[..|ss|] == ss;
  }

  /** One pass of the channel loop of the `2d` form: the header, then the trimmed block. */
  lemma Kernel2dStep<V>(fmt: V -> string, s0: string, k: seq<seq<seq<V>>>, i: nat, n0: nat, j: nat)
    requires j < |k|
    ensures s0 + Concat(KernelSections(fmt, k, i, n0, j)) + Header(i, n0, j, |k|)
              + (DropLast("{" + RowLines(fmt, k[j]), 2) + "};\n\n")
            == s0 + Concat(KernelSections(fmt, k, i, n0, j + 1))
  {
    TrimBlock2d(fmt, k[j]);
    ConcatSnoc(s0, KernelSections(fmt, k, i, n0, j), Header(i, n0, j, |k|), Block2d(fmt, k[j]));
  }

  /** Pass `j` of the channel loop of the `2d` form: the header, then the block trimmed and
      closed by `};`. */
  method PassChannel2d<V>(fmt: V -> string, s1: string, k: seq<seq<seq<V>>>, i: nat, n0: nat, j: nat,
                          ghost s0: string)
    returns (s: string)
    requires j < |k| && forall r :: 0 <= r < |k[j]| ==> |k[j][r]| > 0
    requires s1 == s0 + Concat(KernelSections(fmt, k, i, n0, j))
    ensures s == s0 + Concat(KernelSections(fmt, k, i, n0, j + 1))
  {
    Kernel2dStep(fmt, s0, k, i, n0, j);
    var header := Header(i, n0, j, |k|);
    s := s1 + header;
    var block := "{";
    var rows := RenderRows(fmt, k[j]);
    block := block + rows;
    block := DropLast(block, 2);
    block := block + "};\n\n";
    s := s + block;
  }

  /** The channel loop of the `2d` form for kernel `k`, kernel `i` out of `n0`. */
  method RenderKernel2d<V>(fmt: V -> string, s0: string, k: seq<seq<seq<V>>>, i: nat, n0: nat)
    returns (s: string)
    requires forall j, r :: 0 <= j < |k| && 0 <= r < |k[j]| ==> |k[j][r]| > 0
    ensures s == s0 + Concat(KernelSections(fmt, k, i, n0, |k|))
  {
    s := s0;
    var j := 0;
    while j < |k|
      invariant 0 <= j <= |k|
      invariant s == s0 + Concat(KernelSections(fmt, k, i, n0, j))
    {
      s := PassChannel2d(fmt, s, k, i, n0, j, s0);
      j := j + 1;
    }
  }

  /** One pass of the kernel loop of the `2d` form appends that kernel's sections. */
  lemma Weights2dStep<V>(fmt: V -> string, w: seq<seq<seq<seq<V>>>>, i: nat)
    requires i < |w|
    ensures Concat(Flatten(SectionGrid(fmt, w, i))) + Concat(KernelSections(fmt, w[i], i, |w|, |w[i]|))
            == Concat(Flatten(SectionGrid(fmt, w, i + 1)))
  {
    var g := SectionGrid(fmt, w, i);
    var ks := KernelSections(fmt, w[i], i, |w|, |w[i]|);
    assert SectionGrid(fmt, w, i + 1) == g + [ks];
    assert (g + [ks])[..i] == g;
    assert Flatten(g + [ks]) == Flatten(g) + ks;
    ConcatAppend(Flatten(g), ks);
  }

  /** Pass `i` of the kernel loop of the `2d` form. */
  method Pass2d<V>(fmt: V -> string, s0: string, w: seq<seq<seq<seq<V>>>>, i: nat) returns (s: string)
    requires i < |w|
    requires forall j, r :: 0 <= j < |w[i]| && 0 <= r < |w[i][j]| ==> |w[i][j][r]| > 0
    requires s0 == Concat(Flatten(SectionGrid(fmt, w, i)))
    ensures s == Concat(Flatten(SectionGrid(fmt, w, i + 1)))
  {
    Weights2dStep(fmt, w, i);
    s := RenderKernel2d(fmt, s0, w[i], i, |w|);
  }

  /** The `2d` branch for a rank-4 weight (compare.py lines 294-308): a header line, then the
      block as an initializer of its own. */
  method RenderWeights2d<V>(fmt: V -> string, w: seq<seq<seq<seq<V>>>>, ghost d1: nat, ghost d2: nat, ghost d3: nat)
    returns (s: string)
    requires Shape4(w, d1, d2, d3)
    requires |w| == 0 || d1 == 0 || d2 == 0 || d3 > 0
    ensures s == Weights2d(fmt, w)
  {
    s := "";
    var i := 0;
    while i < |w|
      invariant 0 <= i <= |w|
      invariant s == Concat(Flatten(SectionGrid(fmt, w, i)))
    {
      KernelRows(w, d1, d2, d3, i);
      s := Pass2d(fmt, s, w, i);
      i := i + 1;
    }
  }

  /** The bias loop (compare.py lines 357-363). */
  method RenderBias<V>(fmt: V -> string, b: seq<V>) returns (s: string)
    requires |b| > 0
    ensures s == BiasText(fmt, b)
  {
    s := "{ ";
    s := s + fmt(b[0]);
    var i := 1;
    while i < |b|
      invariant 1 <= i <= |b|
      invariant s == "{ " + Join(MapFmt(fmt, b[..i]), ",\n ")
    {
      MapFmtSnoc(fmt, b, i);
      JoinSnoc(MapFmt(fmt, b[..i]), fmt(b[i]), ",\n ");
      s := s + ",\n ";
      s := s + fmt(b[i]);
      i := i + 1;
    }
    TakeAll(b);
    s := s + " };";
  }
}
