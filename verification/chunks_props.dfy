/** What the rank-2 branch of the weight writer produces: which rows go to which file, that the
    file names never clash, that a row breaks its line after every eighth value, and that the
    files together carry every element once, in order. */
module ChunkWriterProps {
  import opened Text
  import opened Words
  import opened Braces
  import opened Tensors
  import opened Initializer
  import opened ChunkWriter

  // ---------------------------------------------------------------- the row windows

  /** File `k` holds rows `1024 k` up to `min(1024 (k + 1), n)`; there are `ceil(n / 1024)` files. */
  lemma {:induction false} WindowsFromAt(a: nat, n: nat)
    requires a <= n
    ensures |WindowsFrom(a, n)| == (n - a + ChunkRows - 1) / ChunkRows
    ensures forall k :: 0 <= k < |WindowsFrom(a, n)| ==>
              WindowsFrom(a, n)[k] == (a + ChunkRows * k, Min(a + ChunkRows * k + ChunkRows, n))
    decreases n - a
  {
    if a < n {
      var e := Min(a + ChunkRows, n);
      var rest := WindowsFrom(e, n);
      WindowsFromAt(e, n);
      assert WindowsFrom(a, n) == [(a, e)] + rest;
      forall k | 0 < k < |WindowsFrom(a, n)|
        ensures WindowsFrom(a, n)[k] == (a + ChunkRows * k, Min(a + ChunkRows * k + ChunkRows, n))
      {
        assert WindowsFrom(a, n)[k] == rest[k - 1];
        assert e == a + ChunkRows;
        assert ChunkRows * k == ChunkRows * (k - 1) + ChunkRows;
      }
    }
  }

  /** The partition of rows `0 .. n-1` the file loop walks. */
  lemma Windows1024(n: nat)
    ensures |Windows(n)| == (n + 1023) / 1024
    ensures forall k :: 0 <= k < |Windows(n)| ==> Windows(n)[k] == (1024 * k, Min(1024 * k + 1024, n))
  {
    WindowsFromAt(0, n);
  }

  /** The windows are non-empty, consecutive, and together cover rows `0 .. n-1` exactly. */
  lemma WindowsPartition(n: nat)
    ensures n == 0 <==> |Windows(n)| == 0
    ensures n > 0 ==> Windows(n)[0].0 == 0 && Windows(n)[|Windows(n)| - 1].1 == n
    ensures forall k :: 0 <= k < |Windows(n)| ==> Windows(n)[k].0 < Windows(n)[k].1 <= n
    ensures forall k :: 0 <= k < |Windows(n)| - 1 ==>
              Windows(n)[k].1 == Windows(n)[k + 1].0 && Windows(n)[k].1 - Windows(n)[k].0 == 1024
  {
    Windows1024(n);
    var ws := Windows(n);
    if n > 0 {
      var l := |ws| - 1;
      assert 1024 * l < n <= 1024 * l + 1024;
    }
    forall k | 0 <= k < |ws| - 1
      ensures ws[k].1 == ws[k + 1].0 && ws[k].1 - ws[k].0 == 1024
    {
      assert 1024 * (k + 1) < n;
    }
  }

  // ---------------------------------------------------------------- the files

  /** File `k` of the loop is the file of window `k`. */
  lemma {:induction false} ChunksFromWindows<V>(fmt: V -> string, name: string, m: seq<seq<V>>, a: nat)
    requires a <= |m|
    ensures |ChunksFrom(fmt, name, m, a)| == |WindowsFrom(a, |m|)|
    ensures forall k :: 0 <= k < |WindowsFrom(a, |m|)| ==>
              var (s, e) := WindowsFrom(a, |m|)[k];
              s < e <= |m| &&
              ChunksFrom(fmt, name, m, a)[k] == ChunkFile(ChunkName(name, s, e), ChunkText(fmt, m[s..e]))
    decreases |m| - a
  {
    if a < |m| {
      var e := Min(a + ChunkRows, |m|);
      ChunksFromWindows(fmt, name, m, e);
      var fs, ws := ChunksFrom(fmt, name, m, a), WindowsFrom(a, |m|);
      forall k | 0 < k < |ws|
        ensures ws[k] == WindowsFrom(e, |m|)[k - 1] && fs[k] == ChunksFrom(fmt, name, m, e)[k - 1]
      {
      }
    }
  }

  lemma StripPrefix(p: string, x: string, y: string)
    requires p + x == p + y
    ensures x == y
  {
    assert x == (p + x)[|p|..];
    assert y == (p + y)[|p|..];
  }

  lemma ChunkNameParts(name: string, a: nat, b: nat)
    ensures ChunkName(name, a, b) == (name + "_weights_(") + (Str(a) + ("-" + (Str(b) + ").txt")))
  {
  }

  /** Reading the name back: equal names mean equal row ranges. */
  lemma ChunkNameInjective(name: string, a: nat, b: nat, a': nat, b': nat)
    requires ChunkName(name, a, b) == ChunkName(name, a', b')
    ensures a == a' && b == b'
  {
    ChunkNameParts(name, a, b);
    ChunkNameParts(name, a', b');
    var t, t' := Str(b) + ").txt", Str(b') + ").txt";
    StripPrefix(name + "_weights_(", Str(a) + ("-" + t), Str(a') + ("-" + t'));
    StrThenNonDigit(a, a', "-" + t, "-" + t');
    StripPrefix("-", t, t');
    StrThenNonDigit(b, b', ").txt", ").txt");
  }

  /** No two files of one weight share a name, so none overwrites another. */
  lemma ChunkNamesDistinct<V>(fmt: V -> string, name: string, m: seq<seq<V>>)
    ensures forall k, k' :: 0 <= k < k' < |Chunks(fmt, name, m)| ==>
              Chunks(fmt, name, m)[k].name != Chunks(fmt, name, m)[k'].name
  {
    var fs, ws := Chunks(fmt, name, m), Windows(|m|);
    ChunksFromWindows(fmt, name, m, 0);
    Windows1024(|m|);
    forall k, k' | 0 <= k < k' < |fs|
      ensures fs[k].name != fs[k'].name
    {
      if fs[k].name == fs[k'].name {
        ChunkNameInjective(name, ws[k].0, ws[k].1, ws[k'].0, ws[k'].1);
        assert false;
      }
    }
  }

  /** The weights file lists the file names in order, one per line. */
  lemma {:induction false} IndexLinesNames(fs: seq<ChunkFile>)
    ensures IndexLines(fs) == Concat(Names(fs))
    decreases |fs|
  {
    if |fs| > 0 {
      IndexLinesNames(fs[..|fs| - 1]);
      SnocInit(Names(fs[..|fs| - 1]), fs[|fs| - 1].name + "\n");
      assert Names(fs) == Names(fs[..|fs| - 1]) + [fs[|fs| - 1].name + "\n"];
    }
  }

  function Names(fs: seq<ChunkFile>): (ns: seq<string>)
    ensures |ns| == |fs|
    ensures forall k {:trigger ns[k]} :: 0 <= k < |fs| ==> ns[k] == fs[k].name + "\n"
  {
    if |fs| == 0 then [] else Names(fs[..|fs| - 1]) + [fs[|fs| - 1].name + "\n"]
  }

  // ---------------------------------------------------------------- eight values per line

  /** Formatted values in lines of eight, each line joined by `, `, the last line holding the
      rest. */
  function Groups8(ss: seq<string>): seq<string>
    requires |ss| > 0
    decreases |ss|
  {
    var q := (|ss| - 1) / 8 * 8;
    if q == 0 then [Join(ss, ", ")] else Groups8(ss[..q]) + [Join(ss[q..], ", ")]
  }

  /** The values of a non-empty row in lines of eight. */
  function Lines8<V>(fmt: V -> string, r: seq<V>): seq<string>
    requires |r| > 0
  {
    Groups8(MapFmt(fmt, r))
  }

  /** A value whose index is a multiple of eight starts a new line. */
  lemma Groups8Break(ss: seq<string>)
    requires |ss| > 1 && (|ss| - 1) % 8 == 0
    ensures Groups8(ss) == Groups8(ss[..|ss| - 1]) + [ss[|ss| - 1]]
  {
    var n := |ss|;
    assert ss[n - 1..] == [ss[n - 1]];
  }

  /** The full lines of eight before position `q`, none when `q` is zero. */
  function FullGroups(ss: seq<string>, q: nat): seq<string>
    requires q <= |ss|
  {
    if q == 0 then [] else Groups8(ss[..q])
  }

  /** The last line of a row starts at the last multiple of eight below its length. */
  lemma Groups8Split(ss: seq<string>)
    requires |ss| > 0
    ensures (|ss| - 1) / 8 * 8 < |ss|
    ensures Groups8(ss) == FullGroups(ss, (|ss| - 1) / 8 * 8) + [Join(ss[(|ss| - 1) / 8 * 8..], ", ")]
  {
  }

  /** Slicing `r` at `q`, before its last element: the same prefix, and the same suffix with
      the last element after it. */
  lemma InitSlices<T>(r: seq<T>, q: nat)
    requires q < |r|
    ensures r[..|r| - 1][..q] == r[..q]
    ensures r[q..] == r[..|r| - 1][q..] + [r[|r| - 1]]
  {
  }

  /** Dropping the last value keeps the full lines before `q`. */
  lemma FullGroupsInit(ss: seq<string>, q: nat)
    requires q < |ss|
    ensures FullGroups(ss, q) == FullGroups(ss[..|ss| - 1], q)
  {
    InitSlices(ss, q);
  }

  /** The line from `q` on gains the last value. */
  lemma LastGroupSnoc(ss: seq<string>, q: nat)
    requires q < |ss| - 1
    ensures Join(ss[q..], ", ") == Join(ss[..|ss| - 1][q..], ", ") + (", " + ss[|ss| - 1])
  {
    var last, x := ss[..|ss| - 1][q..], ss[|ss| - 1];
    InitSlices(ss, q);
    JoinSnoc(last, x, ", ");
    AppendAssoc(Join(last, ", "), ", ", x);
  }

  /** Any other value extends the last line. */
  lemma Groups8Extend(ss: seq<string>)
    requires |ss| > 1 && (|ss| - 1) % 8 != 0
    ensures var ls := Groups8(ss[..|ss| - 1]);
            Groups8(ss) == ls[..|ls| - 1] + [ls[|ls| - 1] + (", " + ss[|ss| - 1])]
  {
    var n := |ss|;
    var init := ss[..n - 1];
    var q := (n - 1) / 8 * 8;
    assert q == (n - 2) / 8 * 8;
    Groups8Split(ss);
    Groups8Split(init);
    FullGroupsInit(ss, q);
    LastGroupSnoc(ss, q);
    SnocInit(FullGroups(init, q), Join(init[q..], ", "));
  }

  /** Line `k` holds values `8 k` up to `min(8 k + 8, n)`: eight values on every line but the
      last, which holds one to eight. */
  lemma {:induction false} Groups8At(ss: seq<string>)
    requires |ss| > 0
    ensures |Groups8(ss)| == (|ss| - 1) / 8 + 1
    ensures forall k :: 0 <= k < |Groups8(ss)| ==> Groups8(ss)[k] == Join(ss[8 * k..Min(8 * k + 8, |ss|)], ", ")
    decreases |ss|
  {
    var n := |ss|;
    var t := (n - 1) / 8;
    Groups8Split(ss);
    if t == 0 {
      assert ss[0..Min(8, n)] == ss;
    } else {
      var q := 8 * t;
      Groups8Cut(ss, t);
      Groups8At(ss[..q]);
      LastLineStart(n, t);
      assert |Groups8(ss)| == t + 1;
      forall k | 0 <= k <= t
        ensures Groups8(ss)[k] == Join(ss[8 * k..Min(8 * k + 8, n)], ", ")
      {
        Groups8Line(ss, t, k);
      }
    }
  }

  /** A row with `t > 0` full lines is those lines, then the values from `8 t` on. */
  lemma Groups8Cut(ss: seq<string>, t: nat)
    requires |ss| > 0 && t == (|ss| - 1) / 8 && t > 0
    ensures 8 * t < |ss|
    ensures Groups8(ss) == Groups8(ss[..8 * t]) + [Join(ss[8 * t..], ", ")]
  {
    var q := (|ss| - 1) / 8 * 8;
    assert q == 8 * t;
    Groups8Split(ss);
    assert FullGroups(ss, q) == Groups8(ss[..q]);
  }

  /** With `t` full lines before the last, the full lines hold `8 t` values and the last line
      runs from there to the end of the row. */
  lemma LastLineStart(n: nat, t: nat)
    requires n > 0 && t == (n - 1) / 8 && t > 0
    ensures (8 * t - 1) / 8 + 1 == t && 8 * t < n
    ensures Min(8 * t + 8, n) == n
  {
  }

  /** One line of `Groups8(ss)`, from the `t` lines of `ss[..8 t]` and the last line from
      `8 t` on. */
  lemma Groups8Line(ss: seq<string>, t: nat, k: nat)
    requires 0 < 8 * t < |ss| && Min(8 * t + 8, |ss|) == |ss|
    requires Groups8(ss) == Groups8(ss[..8 * t]) + [Join(ss[8 * t..], ", ")]
    requires |Groups8(ss[..8 * t])| == t && k <= t
    requires k < t ==> Groups8(ss[..8 * t])[k] == Join(ss[..8 * t][8 * k..Min(8 * k + 8, 8 * t)], ", ")
    ensures Groups8(ss)[k] == Join(ss[8 * k..Min(8 * k + 8, |ss|)], ", ")
  {
    if k < t {
      EarlyLine(ss, 8 * t, k);
    } else {
      assert ss[8 * t..] == ss[8 * k..|ss|];
    }
  }

  /** A line that ends before `q` holds the same values in `ss[..q]` as in `ss`. */
  lemma EarlyLine(ss: seq<string>, q: nat, k: nat)
    requires 8 * k + 8 <= q <= |ss|
    ensures ss[..q][8 * k..Min(8 * k + 8, q)] == ss[8 * k..Min(8 * k + 8, |ss|)]
  {
  }

  /** Formatting a slice is slicing the formatted row. */
  lemma MapFmtSlice<V>(fmt: V -> string, r: seq<V>, a: nat, b: nat)
    requires a <= b <= |r|
    ensures MapFmt(fmt, r[a..b]) == MapFmt(fmt, r)[a..b]
  {
    var lhs, rhs := MapFmt(fmt, r[a..b]), MapFmt(fmt, r)[a..b];
    forall i | 0 <= i < b - a
      ensures lhs[i] == rhs[i]
    {
      assert lhs[i] == fmt(r[a..b][i]) == fmt(r[a + i]);
      assert rhs[i] == MapFmt(fmt, r)[a + i];
    }
    assert |lhs| == |rhs|;
  }

  /** The formatted row without its last value. */
  lemma MapFmtInit<V>(fmt: V -> string, r: seq<V>)
    requires |r| > 0
    ensures MapFmt(fmt, r)[..|r| - 1] == MapFmt(fmt, r[..|r| - 1])
    ensures MapFmt(fmt, r)[|r| - 1] == fmt(r[|r| - 1])
  {
    SnocInit(MapFmt(fmt, r[..|r| - 1]), fmt(r[|r| - 1]));
  }

  /** Line `k` of a row holds values `8 k` up to `min(8 k + 8, n)`. */
  lemma Lines8At<V>(fmt: V -> string, r: seq<V>)
    requires |r| > 0
    ensures |Lines8(fmt, r)| == (|r| - 1) / 8 + 1
    ensures forall k :: 0 <= k < |Lines8(fmt, r)| ==>
              Lines8(fmt, r)[k] == ValueList(fmt, r[8 * k..Min(8 * k + 8, |r|)])
  {
    var ss := MapFmt(fmt, r);
    Groups8At(ss);
    forall k | 0 <= k < |Lines8(fmt, r)|
      ensures Lines8(fmt, r)[k] == ValueList(fmt, r[8 * k..Min(8 * k + 8, |r|)])
    {
      MapFmtSlice(fmt, r, 8 * k, Min(8 * k + 8, |r|));
    }
  }

  lemma GroupedBreakStep<V>(fmt: V -> string, r: seq<V>)
    requires |r| > 1 && (|r| - 1) % 8 == 0
    requires GroupedList(fmt, r[..|r| - 1]) == Join(Lines8(fmt, r[..|r| - 1]), ", \n")
    ensures GroupedList(fmt, r) == Join(Lines8(fmt, r), ", \n")
  {
    var n := |r|;
    var ls, x := Lines8(fmt, r[..n - 1]), fmt(r[n - 1]);
    assert GroupedList(fmt, r) == Join(ls, ", \n") + ", \n" + x;
    MapFmtInit(fmt, r);
    Groups8Break(MapFmt(fmt, r));
    JoinSnoc(ls, x, ", \n");
  }

  lemma GroupedExtendStep<V>(fmt: V -> string, r: seq<V>)
    requires |r| > 1 && (|r| - 1) % 8 != 0
    requires GroupedList(fmt, r[..|r| - 1]) == Join(Lines8(fmt, r[..|r| - 1]), ", \n")
    ensures GroupedList(fmt, r) == Join(Lines8(fmt, r), ", \n")
  {
    var n := |r|;
    var ls, x := Lines8(fmt, r[..n - 1]), fmt(r[n - 1]);
    assert GroupedList(fmt, r) == Join(ls, ", \n") + ", " + x;
    MapFmtInit(fmt, r);
    Groups8Extend(MapFmt(fmt, r));
    JoinExtendLast(ls, ", " + x, ", \n");
    AppendAssoc(Join(ls, ", \n"), ", ", x);
  }

  /** A row's text is its lines of eight values, joined by `, ` and a line break; line `k`
      holds values `8 k` up to `min(8 k + 8, n)`. */
  lemma {:induction false} GroupedLines8<V>(fmt: V -> string, r: seq<V>)
    requires |r| > 0
    ensures GroupedList(fmt, r) == Join(Lines8(fmt, r), ", \n")
    ensures |Lines8(fmt, r)| == (|r| - 1) / 8 + 1
    ensures forall k :: 0 <= k < |Lines8(fmt, r)| ==>
              Lines8(fmt, r)[k] == ValueList(fmt, r[8 * k..Min(8 * k + 8, |r|)])
    decreases |r|
  {
    Lines8At(fmt, r);
    var n := |r|;
    if n == 1 {
      assert MapFmt(fmt, r) == [fmt(r[0])];
    } else {
      GroupedLines8(fmt, r[..n - 1]);
      if (n - 1) % 8 == 0 {
        GroupedBreakStep(fmt, r);
      } else {
        GroupedExtendStep(fmt, r);
      }
    }
  }

  /** A row of `n > 0` values breaks its line `(n - 1) / 8` times. */
  lemma {:induction false} GroupedBreaks<V(!new)>(fmt: V -> string, r: seq<V>)
    requires FmtOk(fmt) && |r| > 0
    ensures Count(GroupedList(fmt, r), '\n') == (|r| - 1) / 8
    decreases |r|
  {
    var n := |r|;
    assert IsNumeral(fmt(r[n - 1]));
    CountAbsent(fmt(r[n - 1]), '\n');
    if n > 1 {
      var g := GroupedList(fmt, r[..n - 1]);
      GroupedBreaks(fmt, r[..n - 1]);
      CountAppend(g, Sep(n - 1), '\n');
      CountAppend(g + Sep(n - 1), fmt(r[n - 1]), '\n');
      if (n - 1) % 8 == 0 {
        assert Count(", \n", '\n') == 1 by {
          assert ", \n"[..2] == ", ";
          assert ", "[..1] == ",";
        }
      } else {
        assert Count(", ", '\n') == 0 by {
          assert ", "[..1] == ",";
        }
      }
    }
  }

  // ---------------------------------------------------------------- the numbers, in order

  lemma ChunkPunctuation()
    ensures AllSeps(", ", BraceSeps) && AllSeps(", \n", BraceSeps) && AllSeps("{", BraceSeps)
    ensures AllSeps("}", BraceSeps) && AllSeps(",\n", BraceSeps) && AllSeps("};\n\n", BraceSeps)
    ensures BraceSeps <= Layout
  {
    assert forall i :: 0 <= i < 4 ==> "};\n\n"[i] in BraceSeps;
    assert forall i :: 0 <= i < 3 ==> ", \n"[i] in BraceSeps;
  }

  /** A row's text reads back as its formatted values, line breaks or not. */
  lemma {:induction false} GroupedWords<V(!new)>(fmt: V -> string, r: seq<V>)
    requires FmtOk(fmt)
    ensures Split(GroupedList(fmt, r), BraceSeps) == MapFmt(fmt, r)
    decreases |r|
  {
    var n := |r|;
    ChunkPunctuation();
    if n == 1 {
      SplitNumeral(fmt(r[0]), BraceSeps);
    } else if n > 1 {
      var g, sep, v := GroupedList(fmt, r[..n - 1]), Sep(n - 1), fmt(r[n - 1]);
      GroupedWords(fmt, r[..n - 1]);
      SplitAppend(g, sep, BraceSeps);
      SplitAppend(g + sep, v, BraceSeps);
      SplitSeps(sep, BraceSeps);
      SplitNumeral(v, BraceSeps);
      MapFmtSnoc(fmt, r, n - 1);
      TakeAll(r);
    }
  }

  lemma {:induction false} GroupedRowsWords<V(!new)>(fmt: V -> string, m: seq<seq<V>>)
    requires FmtOk(fmt)
    ensures SplitEach(GroupedRows(fmt, m), BraceSeps) == MapFmt(fmt, Flatten(m))
    decreases |m|
  {
    var n := |m|;
    if n > 0 {
      var init, last := m[..n - 1], m[n - 1];
      ChunkPunctuation();
      SnocInit(GroupedRows(fmt, init), GroupedRow(fmt, last));
      GroupedRowsWords(fmt, init);
      SplitWrapped("{", GroupedList(fmt, last), "}", BraceSeps);
      GroupedWords(fmt, last);
      MapFmtAppend(fmt, Flatten(init), last);
    }
  }

  /** One file reads back as the values of its rows, row after row. */
  lemma ChunkWords<V(!new)>(fmt: V -> string, rows: seq<seq<V>>)
    requires FmtOk(fmt)
    ensures Split(ChunkText(fmt, rows), BraceSeps) == MapFmt(fmt, Flatten(rows))
  {
    ChunkPunctuation();
    var j := Join(GroupedRows(fmt, rows), ",\n");
    SplitWrapped("{", j, "};\n\n", BraceSeps);
    SplitJoin(GroupedRows(fmt, rows), ",\n", BraceSeps);
    GroupedRowsWords(fmt, rows);
  }

  function Texts(fs: seq<ChunkFile>): (ts: seq<string>)
    ensures |ts| == |fs|
    ensures forall k {:trigger ts[k]} :: 0 <= k < |fs| ==> ts[k] == fs[k].text
  {
    if |fs| == 0 then [] else Texts(fs[..|fs| - 1]) + [fs[|fs| - 1].text]
  }

  lemma TextsCons(f: ChunkFile, fs: seq<ChunkFile>)
    ensures Texts([f] + fs) == [f.text] + Texts(fs)
  {
  }

  /** The files from row `a` on carry the values of rows `a ..`, in order. */
  lemma {:induction false} ChunksFromWords<V(!new)>(fmt: V -> string, name: string, m: seq<seq<V>>, a: nat)
    requires FmtOk(fmt) && a <= |m|
    ensures SplitEach(Texts(ChunksFrom(fmt, name, m, a)), BraceSeps) == MapFmt(fmt, Flatten(m[a..]))
    decreases |m| - a
  {
    if a < |m| {
      var e := Min(a + ChunkRows, |m|);
      var c := ChunkFile(ChunkName(name, a, e), ChunkText(fmt, m[a..e]));
      var rest := ChunksFrom(fmt, name, m, e);
      ChunksFromWords(fmt, name, m, e);
      TextsCons(c, rest);
      SplitEachAppend([c.text], Texts(rest), BraceSeps);
      SplitEachSingle(c.text, BraceSeps);
      ChunkWords(fmt, m[a..e]);
      SliceSplit(m, a, e);
      FlattenAppend(m[a..e], m[e..]);
      MapFmtAppend(fmt, Flatten(m[a..e]), Flatten(m[e..]));
    }
  }

  /** Together the files carry every element of the weight exactly once, formatted, row after
      row, and nothing else. */
  lemma ChunksWords<V(!new)>(fmt: V -> string, name: string, m: seq<seq<V>>)
    requires FmtOk(fmt)
    ensures SplitEach(Texts(Chunks(fmt, name, m)), BraceSeps) == MapFmt(fmt, Flatten(m))
  {
    ChunksFromWords(fmt, name, m, 0);
    assert m[0..] == m;
  }

  // ---------------------------------------------------------------- brace nesting

  lemma {:induction false} GroupedBraceFree<V(!new)>(fmt: V -> string, r: seq<V>)
    requires FmtOk(fmt)
    ensures BraceFree(GroupedList(fmt, r))
    decreases |r|
  {
    var n := |r|;
    if n > 0 {
      assert IsNumeral(fmt(r[n - 1]));
    }
    if n > 1 {
      GroupedBraceFree(fmt, r[..n - 1]);
      BraceFreeAppend(GroupedList(fmt, r[..n - 1]), Sep(n - 1));
      BraceFreeAppend(GroupedList(fmt, r[..n - 1]) + Sep(n - 1), fmt(r[n - 1]));
    }
  }

  /** Every file is a well-nested initializer: its braces close in order. */
  lemma ChunkBalanced<V(!new)>(fmt: V -> string, rows: seq<seq<V>>)
    requires FmtOk(fmt)
    ensures Balanced(ChunkText(fmt, rows))
  {
    forall k | 0 <= k < |rows|
      ensures Balanced(GroupedRows(fmt, rows)[k])
    {
      GroupedBraceFree(fmt, rows[k]);
      BraceFreeBalanced(GroupedList(fmt, rows[k]));
      BalancedWrap(GroupedList(fmt, rows[k]));
    }
    var j := Join(GroupedRows(fmt, rows), ",\n");
    BalancedJoin(GroupedRows(fmt, rows), ",\n");
    BalancedWrap(j);
    BraceFreeBalanced(";\n\n");
    BalancedAppend("{" + j + "}", ";\n\n");
    assert "};\n\n" == "}" + ";\n\n";
    AppendAssoc("{" + j, "}", ";\n\n");
  }
}
