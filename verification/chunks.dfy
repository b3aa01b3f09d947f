/** The rank-2 (fully connected) branch of the weight writer, compare.py lines 250-282 (the `3d`
    setting) and 311-343 (the `2d` setting, the same code): the rows are cut into files of at
    most 1024 rows, each file one brace list of rows, each row broken after every eighth value;
    the weights file lists the names of those files, one per line. */
module ChunkWriter {
  import opened Text
  import opened Tensors
  import opened Results

  /** Rows per file. */
  const ChunkRows: nat := 1024

  function Min(a: nat, b: nat): nat
  {
    if a <= b then a else b
  }

  // ---------------------------------------------------------------- one row

  /** What the row loop writes before value `j >= 1`: `", "`, and a line break when eight values
      have been written since the last one. */
  function Sep(j: nat): string
  {
    if j % 8 == 0 then ", \n" else ", "
  }

  /** One row's values as the row loop writes them. */
  function GroupedList<V>(fmt: V -> string, r: seq<V>): string
  {
    if |r| == 0 then ""
    else if |r| == 1 then fmt(r[0])
    else GroupedList(fmt, r[..|r| - 1]) + Sep(|r| - 1) + fmt(r[|r| - 1])
  }

  function GroupedRow<V>(fmt: V -> string, r: seq<V>): string
  {
    "{" + GroupedList(fmt, r) + "}"
  }

  function GroupedRows<V>(fmt: V -> string, m: seq<seq<V>>): (ts: seq<string>)
    ensures |ts| == |m|
    ensures forall k {:trigger ts[k]} :: 0 <= k < |m| ==> ts[k] == GroupedRow(fmt, m[k])
  {
    if |m| == 0 then [] else GroupedRows(fmt, m[..|m| - 1]) + [GroupedRow(fmt, m[|m| - 1])]
  }

  /** One file: the rows as a brace list, closed by `;` and a blank line. */
  function ChunkText<V>(fmt: V -> string, rows: seq<seq<V>>): string
  {
    "{" + Join(GroupedRows(fmt, rows), ",\n") + "};\n\n"
  }

  /** `<name>_weights_(<a>-<b>).txt`, the file holding rows `a` to `b - 1`. */
  function ChunkName(name: string, a: nat, b: nat): string
  {
    name + "_weights_(" + Str(a) + "-" + Str(b) + ").txt"
  }

  // ---------------------------------------------------------------- the files

  /** The rows `[start, end)` of each file, from row `curr` on, for `n` rows. */
  function WindowsFrom(curr: nat, n: nat): seq<(nat, nat)>
    decreases n - curr
  {
    if curr >= n then []
    else [(curr, Min(curr + ChunkRows, n))] + WindowsFrom(Min(curr + ChunkRows, n), n)
  }

  function Windows(n: nat): seq<(nat, nat)>
  {
    WindowsFrom(0, n)
  }

  datatype ChunkFile = ChunkFile(name: string, text: string)

  /** The files written from row `curr` on. */
  function ChunksFrom<V>(fmt: V -> string, name: string, m: seq<seq<V>>, curr: nat): (fs: seq<ChunkFile>)
    decreases |m| - curr
  {
    if curr >= |m| then []
    else
      var e := Min(curr + ChunkRows, |m|);
      [ChunkFile(ChunkName(name, curr, e), ChunkText(fmt, m[curr..e]))] + ChunksFrom(fmt, name, m, e)
  }

  function Chunks<V>(fmt: V -> string, name: string, m: seq<seq<V>>): seq<ChunkFile>
  {
    ChunksFrom(fmt, name, m, 0)
  }

  /** The weights file of a rank-2 weight: every file name on a line of its own. */
  function IndexLines(fs: seq<ChunkFile>): string
  {
    if |fs| == 0 then "" else IndexLines(fs[..|fs| - 1]) + fs[|fs| - 1].name + "\n"
  }

  datatype Chunked = Chunked(files: seq<ChunkFile>, index: string)

  // ---------------------------------------------------------------- the loops of compare.py

  /** `", "` then `"\n"` is the line-breaking separator. */
  lemma BreakSep(s: string, x: string)
    ensures s + ", " + "\n" + x == s + ", \n" + x
  {
    assert ", " + "\n" == ", \n";
  }

  /** One more value of a row prefix: its separator, then the value. */
  lemma GroupedStep<V>(fmt: V -> string, r: seq<V>, j: nat)
    requires 1 <= j < |r|
    ensures GroupedList(fmt, r[..j + 1]) == GroupedList(fmt, r[..j]) + Sep(j) + fmt(r[j])
  {
    SnocInit(r[..j], r[j]);
    assert r[..j + 1] == r[..j] + [r[j]];
  }

  /** The value loop of one row, with its counter of values since the last line break. */
  method RenderGrouped<V>(fmt: V -> string, r: seq<V>) returns (s: string)
    requires |r| > 0
    ensures s == GroupedList(fmt, r)
  {
    s := fmt(r[0]);
    var count := 1;
    var j := 1;
    while j < |r|
      invariant 1 <= j <= |r|
      invariant count == (j - 1) % 8 + 1
      invariant s == GroupedList(fmt, r[..j])
    {
      GroupedStep(fmt, r, j);
      ghost var s0 := s;
      s := s + ", ";
      if count == 8 {
        s := s + "\n";
        count := 0;
        BreakSep(s0, fmt(r[j]));
      }
      s := s + fmt(r[j]);
      count := count + 1;
      j := j + 1;
    }
    TakeAll(r);
  }

  /** What the row loop of one file appends after the file's opening brace. */
  function GroupedLines<V>(fmt: V -> string, rows: seq<seq<V>>): string
  {
    if |rows| == 0 then "" else Join(GroupedRows(fmt, rows), ",\n") + ",\n"
  }

  /** One pass of the row loop of a file appends the row's brace list and `,\n`. */
  lemma GroupedLinesStep<V>(fmt: V -> string, rows: seq<seq<V>>, i: nat)
    requires i < |rows|
    ensures GroupedLines(fmt, rows[..i + 1]) == GroupedLines(fmt, rows[..i]) + GroupedRow(fmt, rows[i]) + ",\n"
  {
    var pre, g := rows[..i], GroupedRow(fmt, rows[i]);
    assert rows[..i + 1] == pre + [rows[i]];
    SnocInit(pre, rows[i]);
    assert GroupedRows(fmt, pre + [rows[i]]) == GroupedRows(fmt, pre) + [g];
    if i > 0 {
      JoinSnoc(GroupedRows(fmt, pre), g, ",\n");
    } else {
      assert GroupedRows(fmt, pre) + [g] == [g];
    }
  }

  /** `{` + values + `},\n` is the row's brace list, then `,\n`. */
  lemma RowThenComma(s: string, vals: string)
    ensures s + "{" + vals + "},\n" == s + ("{" + vals + "}") + ",\n"
  {
    assert "},\n" == "}" + ",\n";
  }

  /** The final trim and `};\n\n` of a file with rows. */
  lemma CloseChunk<V>(fmt: V -> string, rows: seq<seq<V>>)
    requires |rows| > 0
    ensures DropLast("{" + GroupedLines(fmt, rows[..|rows|]), 2) + "};\n\n" == ChunkText(fmt, rows)
  {
    TakeAll(rows);
    var t := "{" + Join(GroupedRows(fmt, rows), ",\n");
    assert "{" + GroupedLines(fmt, rows) == t + ",\n";
    DropLastAppend(t, ",\n");
  }

  /** Pass `i` of the row loop of a file: `{`, the row's values, `},\n`. */
  method PassChunkRow<V>(fmt: V -> string, s0: string, rows: seq<seq<V>>, i: nat) returns (s: string)
    requires i < |rows| && |rows[i]| > 0
    requires s0 == "{" + GroupedLines(fmt, rows[..i])
    ensures s == "{" + GroupedLines(fmt, rows[..i + 1])
  {
    var row := RenderGrouped(fmt, rows[i]);
    GroupedLinesStep(fmt, rows, i);
    RowThenComma(s0, row);
    s := s0 + "{" + row + "},\n";
  }

  /** The row loop of one file over its rows `W[curr:curr_end]`; an empty row stops it at
      `W[i][0]`. */
  method RenderChunk<V>(fmt: V -> string, rows: seq<seq<V>>) returns (r: Result<string>)
    requires |rows| > 0
    ensures r.Err? <==> !NoEmptyRow(rows)
    ensures r.Err? ==> r.error == IndexError
    ensures r.Ok? ==> r.value == ChunkText(fmt, rows)
  {
    var s := "{";
    var i := 0;
    while i < |rows|
      invariant 0 <= i <= |rows|
      invariant forall k :: 0 <= k < i ==> |rows[k]| > 0
      invariant s == "{" + GroupedLines(fmt, rows[..i])
    {
      if |rows[i]| == 0 {
        return Err(IndexError);
      }
      s := PassChunkRow(fmt, s, rows, i);
      i := i + 1;
    }
    CloseChunk(fmt, rows);
    s := DropLast(s, 2);
    s := s + "};\n\n";
    r := Ok(s);
  }

  /** One pass of the file loop: the files so far, then this one, then the rest. */
  lemma ChunksStep<V>(fmt: V -> string, name: string, m: seq<seq<V>>, curr: nat, files: seq<ChunkFile>)
    requires curr < |m|
    ensures files + ChunksFrom(fmt, name, m, curr)
            == (files + [ChunkFile(ChunkName(name, curr, Min(curr + ChunkRows, |m|)),
                                   ChunkText(fmt, m[curr..Min(curr + ChunkRows, |m|)]))])
               + ChunksFrom(fmt, name, m, Min(curr + ChunkRows, |m|))
  {
    var e := Min(curr + ChunkRows, |m|);
    var c := ChunkFile(ChunkName(name, curr, e), ChunkText(fmt, m[curr..e]));
    AppendAssoc(files, [c], ChunksFrom(fmt, name, m, e));
  }

  /** The file loop of the rank-2 branch: `curr` and `curr_end` step by 1024, `curr_end` clipped
      to the row count. */
  method WriteChunks<V>(fmt: V -> string, name: string, m: seq<seq<V>>) returns (r: Result<Chunked>)
    ensures r.Err? <==> !NoEmptyRow(m)
    ensures r.Err? ==> r.error == IndexError
    ensures r.Ok? ==> r.value.files == Chunks(fmt, name, m) && r.value.index == IndexLines(r.value.files)
  {
    var length := |m|;
    var currEnd := ChunkRows;
    var curr := 0;
    var files: seq<ChunkFile> := [];
    var index := "";
    EmptyPrefix(files, Chunks(fmt, name, m));
    while curr < length
      invariant curr <= length
      invariant currEnd == curr + ChunkRows
      invariant NoEmptyRow(m[..curr])
      invariant files + ChunksFrom(fmt, name, m, curr) == Chunks(fmt, name, m)
      invariant index == IndexLines(files)
      decreases length - curr
    {
      if currEnd > length {
        currEnd := length;
      }
      var fcFile := ChunkName(name, curr, currEnd);
      var text := RenderChunk(fmt, m[curr..currEnd]);
      NoEmptyRowSplit(m, curr, currEnd);
      if text.Err? {
        if NoEmptyRow(m) {
          NoEmptyRowPrefix(m, currEnd);
        }
        return Err(IndexError);
      }
      ChunksStep(fmt, name, m, curr, files);
      SnocInit(files, ChunkFile(fcFile, text.value));
      files := files + [ChunkFile(fcFile, text.value)];
      index := index + fcFile + "\n";
      curr := currEnd;
      currEnd := currEnd + ChunkRows;
    }
    AppendEmpty(files, ChunksFrom(fmt, name, m, curr));
    TakeAll(m);
    r := Ok(Chunked(files, index));
  }
}
