/** What a blob file holds: one line per innermost row (per column for a rank-2 blob), each line
    the formatted values of that row, in order. */
module BlobsProps {
  import opened Text
  import opened Words
  import opened Tensors
  import opened Results
  import opened Initializer
  import opened Blobs

  /** Two spaces and a line break separate words. */
  lemma BlobPunctuation()
    ensures AllSeps("  ", Whitespace) && AllSeps("\n", Whitespace) && Whitespace <= Layout
  {
  }

  lemma {:induction false} PaddedWords<V(!new)>(fmt: V -> string, row: seq<V>)
    requires FmtOk(fmt)
    ensures Split(Concat(Padded(fmt, row)), Whitespace) == MapFmt(fmt, row)
    decreases |row|
  {
    var n := |row|;
    if n > 0 {
      var init, v := row[..n - 1], fmt(row[n - 1]);
      var c := Concat(Padded(fmt, init));
      BlobPunctuation();
      PaddedWords(fmt, init);
      assert Padded(fmt, row) == Padded(fmt, init) + [v + "  "];
      SnocInit(Padded(fmt, init), v + "  ");
      assert Concat(Padded(fmt, row)) == c + (v + "  ");
      assert IsNumeral(v);
      SplitAppend(c, v + "  ", Whitespace);
      SplitAppend(v, "  ", Whitespace);
      SplitNumeral(v, Whitespace);
      SplitSeps("  ", Whitespace);
      MapFmtSnoc(fmt, row, n - 1);
      TakeAll(row);
    }
  }

  /** A line reads back as the formatted values of its row. */
  lemma BlobLineWords<V(!new)>(fmt: V -> string, row: seq<V>)
    requires FmtOk(fmt)
    ensures Split(BlobLine(fmt, row), Whitespace) == MapFmt(fmt, row)
  {
    BlobPunctuation();
    SplitWrapped("  ", Concat(Padded(fmt, row)), "\n", Whitespace);
    PaddedWords(fmt, row);
  }

  lemma {:induction false} PaddedBreakFree<V(!new)>(fmt: V -> string, row: seq<V>)
    requires FmtOk(fmt)
    ensures Count(Concat(Padded(fmt, row)), '\n') == 0
    decreases |row|
  {
    var n := |row|;
    if n > 0 {
      var init, v := row[..n - 1], fmt(row[n - 1]);
      PaddedBreakFree(fmt, init);
      SnocInit(Padded(fmt, init), v + "  ");
      assert Padded(fmt, row) == Padded(fmt, init) + [v + "  "];
      assert IsNumeral(v);
      CountAbsent(v + "  ", '\n');
      CountAppend(Concat(Padded(fmt, init)), v + "  ", '\n');
    }
  }

  /** A line holds exactly one line break, at its end. */
  lemma BlobLineBreaks<V(!new)>(fmt: V -> string, row: seq<V>)
    requires FmtOk(fmt)
    ensures Count(BlobLine(fmt, row), '\n') == 1
    ensures BlobLine(fmt, row)[|BlobLine(fmt, row)| - 1] == '\n'
  {
    var c := Concat(Padded(fmt, row));
    PaddedBreakFree(fmt, row);
    CountAbsent("  ", '\n');
    CountAppend("  ", c, '\n');
    CountAppend("  " + c, "\n", '\n');
  }

  /** A blob text reads back as the values of its rows, row after row. */
  lemma {:induction false} BlobTextWords<V(!new)>(fmt: V -> string, rows: seq<seq<V>>)
    requires FmtOk(fmt)
    ensures Split(BlobText(fmt, rows), Whitespace) == MapFmt(fmt, Flatten(rows))
    decreases |rows|
  {
    var n := |rows|;
    if n > 0 {
      var init, last := rows[..n - 1], rows[n - 1];
      BlobTextWords(fmt, init);
      BlobLineWords(fmt, last);
      BlobPunctuation();
      SplitAppend(BlobText(fmt, init), BlobLine(fmt, last), Whitespace);
      MapFmtAppend(fmt, Flatten(init), last);
    }
  }

  /** A blob text has one line per row. */
  lemma {:induction false} BlobTextLines<V(!new)>(fmt: V -> string, rows: seq<seq<V>>)
    requires FmtOk(fmt)
    ensures Count(BlobText(fmt, rows), '\n') == |rows|
    decreases |rows|
  {
    var n := |rows|;
    if n > 0 {
      BlobTextLines(fmt, rows[..n - 1]);
      BlobLineBreaks(fmt, rows[n - 1]);
      CountAppend(BlobText(fmt, rows[..n - 1]), BlobLine(fmt, rows[n - 1]), '\n');
    }
  }

  /** Reading back the two lines around a row boundary: a blob text ends each row with a line
      break, so the next row starts a line of its own. */
  lemma BlobTextEndsLine<V(!new)>(fmt: V -> string, rows: seq<seq<V>>)
    requires FmtOk(fmt) && |rows| > 0
    ensures BlobText(fmt, rows)[|BlobText(fmt, rows)| - 1] == '\n'
  {
    BlobLineBreaks(fmt, rows[|rows| - 1]);
  }

  /** A rank-4 blob of shape `n x c x h x w` gives `n * c * h` lines that carry every element in
      row-major order. */
  lemma Blob4<V(!new)>(fmt: V -> string, w: seq<seq<seq<seq<V>>>>, d1: nat, d2: nat, d3: nat)
    requires FmtOk(fmt) && Shape4(w, d1, d2, d3)
    ensures BlobOf(fmt, Rank4(w, d1, d2, d3)).Ok?
    ensures Split(BlobOf(fmt, Rank4(w, d1, d2, d3)).value, Whitespace) == MapFmt(fmt, Flatten(Flatten(Flatten(w))))
    ensures Count(BlobOf(fmt, Rank4(w, d1, d2, d3)).value, '\n') == |w| * d1 * d2
  {
    var rows := Flatten(Flatten(w));
    BlobTextWords(fmt, rows);
    BlobTextLines(fmt, rows);
    BlockCount(w, d1, d2, d3);
    FlattenLength(Flatten(w), d2);
  }

  /** A rank-2 blob with rows gives one line per column: line `i` holds `W[0][i], W[1][i], ...`. */
  lemma Blob2<V(!new)>(fmt: V -> string, m: seq<seq<V>>, cols: nat)
    requires FmtOk(fmt) && IsMatrix(m, cols) && |m| > 0
    ensures BlobOf(fmt, Rank2(m, cols)) == Ok(BlobText(fmt, Columns(m, cols)))
    ensures Count(BlobOf(fmt, Rank2(m, cols)).value, '\n') == cols
    ensures forall i :: 0 <= i < cols ==> Split(BlobLine(fmt, Columns(m, cols)[i]), Whitespace) == MapFmt(fmt, Column(m, i))
  {
    BlobTextLines(fmt, Columns(m, cols));
    forall i | 0 <= i < cols
      ensures Split(BlobLine(fmt, Columns(m, cols)[i]), Whitespace) == MapFmt(fmt, Column(m, i))
    {
      BlobLineWords(fmt, Column(m, i));
    }
  }

  /** A rank-2 blob without rows stops at `W[0]`. */
  lemma Blob2NoRows<V>(fmt: V -> string, cols: nat)
    ensures BlobOf(fmt, Rank2([], cols)) == Err(IndexError)
  {
  }

  /** Writing column by column is a transpose: doing it twice gives the matrix back. */
  lemma TransposeTwice<V>(m: seq<seq<V>>, cols: nat)
    requires IsMatrix(m, cols)
    ensures IsMatrix(Columns(m, cols), |m|)
    ensures Columns(Columns(m, cols), |m|) == m
  {
    var t := Columns(m, cols);
    var tt := Columns(t, |m|);
    forall j | 0 <= j < |m|
      ensures tt[j] == m[j]
    {
      forall i | 0 <= i < cols
        ensures tt[j][i] == m[j][i]
      {
        assert tt[j] == Column(t, j);
        assert t[i] == Column(m, i);
      }
    }
  }

  /** The name `blob_filenames.txt` lists for a blob is not the file the blob was written to:
      the list says `<blob>_blob.txt`, the file is `<blob>.txt`. It is the file of a blob named
      `<blob>_blob`, so when the net has such a blob a reader of the list opens that blob's data. */
  lemma ManifestNamesOtherFile(blob: string)
    ensures BlobManifestLine(blob) != BlobPath(blob) + "\n"
    ensures BlobManifestLine(blob) == BlobPath(blob + "_blob") + "\n"
  {
    assert |BlobManifestLine(blob)| == |BlobPath(blob) + "\n"| + 5;
    AppendAssoc(blob, "_blob", ".txt");
    AppendAssoc(blob + "_blob", ".txt", "\n");
    AppendAssoc(blob, "_blob", ".txt\n");
    assert "_blob" + ".txt\n" == "_blob.txt\n";
  }
}
