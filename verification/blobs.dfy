/** The blob dump of compare.py, lines 165-197: every activation blob goes to a text file of its
    own, one line per innermost row, each value followed by two spaces; a rank-2 blob is written
    column by column (its transpose); a blob of any other rank leaves its file empty. The list of
    blob file names goes to `blob_filenames.txt`. */
module Blobs {
  import opened Text
  import opened Tensors
  import opened Results

  /** Each formatted value followed by two spaces. */
  function Padded<V>(fmt: V -> string, row: seq<V>): (ps: seq<string>)
    ensures |ps| == |row|
    ensures forall l {:trigger ps[l]} :: 0 <= l < |row| ==> ps[l] == fmt(row[l]) + "  "
  {
    if |row| == 0 then [] else Padded(fmt, row[..|row| - 1]) + [fmt(row[|row| - 1]) + "  "]
  }

  /** One line of a blob file: two spaces, the padded values, a line break. */
  function BlobLine<V>(fmt: V -> string, row: seq<V>): string
  {
    "  " + Concat(Padded(fmt, row)) + "\n"
  }

  /** The lines of `rows`, one after the other. */
  function BlobText<V>(fmt: V -> string, rows: seq<seq<V>>): string
  {
    if |rows| == 0 then "" else BlobText(fmt, rows[..|rows| - 1]) + BlobLine(fmt, rows[|rows| - 1])
  }

  /** Column `i` of a matrix, top to bottom. */
  function Column<V>(m: seq<seq<V>>, i: nat): (c: seq<V>)
    requires forall j :: 0 <= j < |m| ==> i < |m[j]|
    ensures |c| == |m|
    ensures forall j {:trigger c[j]} :: 0 <= j < |m| ==> c[j] == m[j][i]
  {
    if |m| == 0 then [] else Column(m[..|m| - 1], i) + [m[|m| - 1][i]]
  }

  /** The first `c` columns of `m`, as rows: the transpose. */
  function Columns<V>(m: seq<seq<V>>, c: nat): (t: seq<seq<V>>)
    requires forall j :: 0 <= j < |m| ==> c <= |m[j]|
    ensures |t| == c
    ensures forall i {:trigger t[i]} :: 0 <= i < c ==> t[i] == Column(m, i)
  {
    if c == 0 then [] else Columns(m, c - 1) + [Column(m, c - 1)]
  }

  /** The content of a blob's file. The rank-2 branch reads the column count from `W[0]`, which
      does not exist when the blob has no row. */
  function BlobOf<V>(fmt: V -> string, t: Tensor<V>): Result<string>
    requires t.Valid()
  {
    match t
    case Rank4(w, _, _, _) => Ok(BlobText(fmt, Flatten(Flatten(w))))
    case Rank2(m, cols) => if |m| == 0 then Err(IndexError) else Ok(BlobText(fmt, Columns(m, cols)))
    case OtherRank => Ok("")
  }

  /** The file a blob is written to. */
  function BlobPath(blob: string): string
  {
    blob + ".txt"
  }

  /** The line `blob_filenames.txt` gets for a blob. */
  function BlobManifestLine(blob: string): string
  {
    blob + "_blob.txt\n"
  }

  // ---------------------------------------------------------------- the loops of compare.py

  lemma PaddedSnoc<V>(fmt: V -> string, row: seq<V>, l: nat)
    requires l < |row|
    ensures Padded(fmt, row[..l + 1]) == Padded(fmt, row[..l]) + [fmt(row[l]) + "  "]
  {
    SnocInit(row[..l], row[l]);
    assert row[..l + 1] == row[..l] + [row[l]];
  }

  lemma ConcatSnocText(pre: string, ps: seq<string>, v: string)
    ensures pre + Concat(ps + [v + "  "]) == pre + Concat(ps) + v + "  "
  {
    SnocInit(ps, v + "  ");
  }

  /** The value loop of one line. */
  method RenderBlobLine<V>(fmt: V -> string, row: seq<V>) returns (s: string)
    ensures s == BlobLine(fmt, row)
  {
    s := "  ";
    var l := 0;
    while l < |row|
      invariant 0 <= l <= |row|
      invariant s == "  " + Concat(Padded(fmt, row[..l]))
    {
      PaddedSnoc(fmt, row, l);
      ConcatSnocText("  ", Padded(fmt, row[..l]), fmt(row[l]));
      s := s + fmt(row[l]);
      s := s + "  ";
      l := l + 1;
    }
    TakeAll(row);
    s := s + "\n";
  }

  lemma BlobTextSnoc<V>(fmt: V -> string, rows: seq<seq<V>>, k: nat)
    requires k < |rows|
    ensures BlobText(fmt, rows[..k + 1]) == BlobText(fmt, rows[..k]) + BlobLine(fmt, rows[k])
  {
    SnocInit(rows[..k], rows[k]);
    assert rows[..k + 1] == rows[..k] + [rows[k]];
  }

  lemma {:induction false} BlobTextAppend<V>(fmt: V -> string, a: seq<seq<V>>, b: seq<seq<V>>)
    ensures BlobText(fmt, a + b) == BlobText(fmt, a) + BlobText(fmt, b)
    decreases |b|
  {
    if |b| == 0 {
      AppendEmpty(a, b);
    } else {
      var b', x := b[..|b| - 1], b[|b| - 1];
      AppendInit(a, b);
      BlobTextAppend(fmt, a, b');
      AppendAssoc(BlobText(fmt, a), BlobText(fmt, b'), BlobLine(fmt, x));
    }
  }

  /** The innermost loop over the rows of one (image, channel) plane. */
  method RenderBlobRows<V>(fmt: V -> string, s0: string, rows: seq<seq<V>>) returns (s: string)
    ensures s == s0 + BlobText(fmt, rows)
  {
    s := s0;
    var k := 0;
    while k < |rows|
      invariant 0 <= k <= |rows|
      invariant s == s0 + BlobText(fmt, rows[..k])
    {
      var line := RenderBlobLine(fmt, rows[k]);
      BlobTextSnoc(fmt, rows, k);
      s := s + line;
      k := k + 1;
    }
    TakeAll(rows);
  }

  lemma PlanesStep<V>(fmt: V -> string, s0: string, planes: seq<seq<seq<V>>>, j: nat)
    requires j < |planes|
    ensures s0 + BlobText(fmt, Flatten(planes[..j])) + BlobText(fmt, planes[j])
            == s0 + BlobText(fmt, Flatten(planes[..j + 1]))
  {
    FlattenPrefix(planes, j);
    BlobTextAppend(fmt, Flatten(planes[..j]), planes[j]);
    AppendAssoc(s0, BlobText(fmt, Flatten(planes[..j])), BlobText(fmt, planes[j]));
  }

  lemma ImagesStep<V>(fmt: V -> string, w: seq<seq<seq<seq<V>>>>, i: nat)
    requires i < |w|
    ensures BlobText(fmt, Flatten(Flatten(w[..i]))) + BlobText(fmt, Flatten(w[i]))
            == BlobText(fmt, Flatten(Flatten(w[..i + 1])))
  {
    FlattenPrefix(w, i);
    FlattenAppend(Flatten(w[..i]), w[i]);
    BlobTextAppend(fmt, Flatten(Flatten(w[..i])), Flatten(w[i]));
  }

  /** The plane loop over the channels of one image. */
  method RenderBlobPlanes<V>(fmt: V -> string, s0: string, planes: seq<seq<seq<V>>>) returns (s: string)
    ensures s == s0 + BlobText(fmt, Flatten(planes))
  {
    s := s0;
    var j := 0;
    while j < |planes|
      invariant 0 <= j <= |planes|
      invariant s == s0 + BlobText(fmt, Flatten(planes[..j]))
    {
      PlanesStep(fmt, s0, planes, j);
      s := RenderBlobRows(fmt, s, planes[j]);
      j := j + 1;
    }
    TakeAll(planes);
  }

  /** The rank-4 branch: images, channels, rows, one line per row. */
  method RenderBlob4<V>(fmt: V -> string, w: seq<seq<seq<seq<V>>>>) returns (s: string)
    ensures s == BlobText(fmt, Flatten(Flatten(w)))
  {
    s := "";
    var i := 0;
    while i < |w|
      invariant 0 <= i <= |w|
      invariant s == BlobText(fmt, Flatten(Flatten(w[..i])))
    {
      ImagesStep(fmt, w, i);
      s := RenderBlobPlanes(fmt, s, w[i]);
      i := i + 1;
    }
    TakeAll(w);
  }

  lemma ColumnSnoc<V>(m: seq<seq<V>>, i: nat, j: nat)
    requires j < |m| && forall k :: 0 <= k < |m| ==> i < |m[k]|
    ensures Column(m[..j + 1], i) == Column(m[..j], i) + [m[j][i]]
  {
    SnocInit(m[..j], m[j]);
    assert m[..j + 1] == m[..j] + [m[j]];
  }

  /** One line of the rank-2 branch: column `i`, one value per row. */
  method RenderColumnLine<V>(fmt: V -> string, m: seq<seq<V>>, i: nat) returns (s: string)
    requires forall k :: 0 <= k < |m| ==> i < |m[k]|
    ensures s == BlobLine(fmt, Column(m, i))
  {
    s := "  ";
    var j := 0;
    while j < |m|
      invariant 0 <= j <= |m|
      invariant s == "  " + Concat(Padded(fmt, Column(m[..j], i)))
    {
      ColumnSnoc(m, i, j);
      ConcatSnocText("  ", Padded(fmt, Column(m[..j], i)), fmt(m[j][i]));
      SnocInit(Padded(fmt, Column(m[..j], i)), fmt(m[j][i]) + "  ");
      s := s + fmt(m[j][i]);
      s := s + "  ";
      j := j + 1;
    }
    TakeAll(m);
    s := s + "\n";
  }

  lemma ColumnsSnoc<V>(fmt: V -> string, m: seq<seq<V>>, cols: nat, i: nat)
    requires IsMatrix(m, cols) && i < cols
    ensures BlobText(fmt, Columns(m, cols)[..i + 1]) == BlobText(fmt, Columns(m, cols)[..i]) + BlobLine(fmt, Column(m, i))
  {
    BlobTextSnoc(fmt, Columns(m, cols), i);
  }

  /** The rank-2 branch: one line per column of `W[0]`. */
  method RenderBlob2<V>(fmt: V -> string, m: seq<seq<V>>, ghost cols: nat) returns (r: Result<string>)
    requires IsMatrix(m, cols)
    ensures r == BlobOf(fmt, Rank2(m, cols))
  {
    if |m| == 0 {
      return Err(IndexError);
    }
    var s := "";
    var i := 0;
    var n := |m[0]|;
    while i < n
      invariant 0 <= i <= n && n == cols
      invariant s == BlobText(fmt, Columns(m, cols)[..i])
    {
      var line := RenderColumnLine(fmt, m, i);
      ColumnsSnoc(fmt, m, cols, i);
      s := s + line;
      i := i + 1;
    }
    TakeAll(Columns(m, cols));
    r := Ok(s);
  }

  /** The body of the blob loop: the file content of one blob. */
  method RenderBlob<V>(fmt: V -> string, t: Tensor<V>) returns (r: Result<string>)
    requires t.Valid()
    ensures r == BlobOf(fmt, t)
  {
    match t
    case Rank4(w, _, _, _) =>
      var s := RenderBlob4(fmt, w);
      r := Ok(s);
    case Rank2(m, cols) =>
      r := RenderBlob2(fmt, m, cols);
    case OtherRank =>
      r := Ok("");
  }
}
