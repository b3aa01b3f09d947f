/** What the table written by `convert_to_2d` holds: the file's numbers and nothing else, one
    line break per `numCols` numbers, and the same table again when it is converted a second time. */
module ReflowProps {
  import opened Text
  import opened Words
  import opened Results
  import opened Reflow

  // ---------------------------------------------------------------- the numbers of a file

  /** After the cleaning, no bracket, comma or line break is left. */
  lemma CleanedFree(content: string)
    ensures forall i :: 0 <= i < |Cleaned(content)| ==> Cleaned(content)[i] !in {'[', ']', ',', '\n'}
  {
    var s3 := RemoveChar(content, '[');
    var s2 := RemoveChar(s3, ']');
    var s1 := RemoveChar(s2, ',');
    RemoveCharKeepsAbsent(s3, ']', '[');
    RemoveCharKeepsAbsent(s2, ',', '[');
    RemoveCharKeepsAbsent(s2, ',', ']');
  }

  /** The numbers of a file are non-empty, hold no whitespace, and hold no bracket or comma. */
  lemma TokensShape(content: string)
    ensures forall k :: 0 <= k < |Tokens(content)| ==> |Tokens(content)[k]| > 0 && SepFree(Tokens(content)[k], Whitespace)
    ensures forall k, i :: 0 <= k < |Tokens(content)| && 0 <= i < |Tokens(content)[k]| ==>
              Tokens(content)[k][i] !in {'[', ']', ','}
  {
    var s := Cleaned(content);
    CleanedFree(content);
    SplitKeepsAbsent(s, Whitespace, '[');
    SplitKeepsAbsent(s, Whitespace, ']');
    SplitKeepsAbsent(s, Whitespace, ',');
  }

  // ---------------------------------------------------------------- Python's remainder

  lemma MulBounds(a: int, d: int)
    requires a > 0
    ensures d >= 1 ==> a * d >= a
    ensures d <= -1 ==> a * d <= -a
  {
    if d >= 1 {
      assert a * d == a * (d - 1) + a;
    } else if d <= -1 {
      assert a * d == a * (d + 1) - a;
    }
  }

  lemma DivUnique(x: int, a: int, q: int, r: int)
    requires a > 0 && 0 <= r < a && x == q * a + r
    ensures x / a == q && x % a == r
  {
    var d := x / a - q;
    assert a * d == r - x % a by {
      assert x == a * (x / a) + x % a;
      assert a * d == a * (x / a) - a * q;
    }
    MulBounds(a, d);
  }

  /** `i % numCols == 0` in Python exactly when `|numCols|` divides `i`, whatever the sign. */
  lemma PyModZero(i: int, n: int)
    requires n != 0
    ensures PyMod(i, n) == 0 <==> i % Abs(n) == 0
  {
    if n < 0 {
      var a := -n;
      if i % a == 0 {
        assert i == (i / a) * a;
        DivUnique(-i, a, -(i / a), 0);
      }
      if (-i) % a == 0 {
        assert -i == ((-i) / a) * a;
        DivUnique(i, a, -((-i) / a), 0);
      }
    }
  }

  /** Going from `m - 1` to `m` passes a multiple of `a` exactly when `a` divides `m`. */
  lemma DivStep(m: int, a: int)
    requires m >= 1 && a >= 1
    ensures m / a == (m - 1) / a + (if m % a == 0 then 1 else 0)
  {
    var q, r := (m - 1) / a, (m - 1) % a;
    if r == a - 1 {
      DivUnique(m, a, q + 1, 0);
    } else {
      DivUnique(m, a, q, r + 1);
    }
  }

  // ---------------------------------------------------------------- the table

  /** A field holds its token and spaces. */
  lemma FieldChars(t: string, c: char)
    requires c != ' ' && forall i :: 0 <= i < |t| ==> t[i] != c
    ensures forall i :: 0 <= i < |Field(t)| ==> Field(t)[i] != c
  {
    var f := Field(t);
    forall i | 0 <= i < |f| ensures f[i] != c {
      if i < |t| {
        assert f[i] == f[..|t|][i];
      }
    }
  }

  /** The table holds the tokens' characters, spaces and line breaks only. */
  lemma {:induction false} TableAvoids(toks: seq<string>, n: int, c: char)
    requires n != 0 && c != ' ' && c != '\n'
    requires forall k, i :: 0 <= k < |toks| && 0 <= i < |toks[k]| ==> toks[k][i] != c
    ensures forall i :: 0 <= i < |Table(toks, n)| ==> Table(toks, n)[i] != c
    decreases |toks|
  {
    var m := |toks|;
    if m > 0 {
      var init, t := toks[..m - 1], toks[m - 1];
      forall k, i | 0 <= k < |init| && 0 <= i < |init[k]| ensures init[k][i] != c {
        assert init[k] == toks[k];
      }
      TableAvoids(init, n, c);
      FieldChars(t, c);
    }
  }

  /** No token holds a line break. */
  predicate BreakFree(toks: seq<string>)
  {
    forall k, i :: 0 <= k < |toks| && 0 <= i < |toks[k]| ==> toks[k][i] != '\n'
  }

  lemma BreakFreeInit(toks: seq<string>)
    requires BreakFree(toks) && |toks| > 0
    ensures BreakFree(toks[..|toks| - 1])
  {
    var init := toks[..|toks| - 1];
    forall k, i | 0 <= k < |init| && 0 <= i < |init[k]| ensures init[k][i] != '\n' {
      assert init[k] == toks[k];
    }
  }

  lemma CountStep(toks: seq<string>, n: int)
    requires n != 0 && |toks| > 0 && BreakFree(toks)
    ensures Count(Table(toks, n), '\n')
            == Count(Table(toks[..|toks| - 1], n), '\n') + (if |toks| % Abs(n) == 0 then 1 else 0)
  {
    PyModZero(|toks|, n);
    var init, t := toks[..|toks| - 1], toks[|toks| - 1];
    var nl := if PyMod(|toks|, n) == 0 then "\n" else "";
    FieldChars(t, '\n');
    CountAbsent(Field(t), '\n');
    CountAppend(Table(init, n), Field(t), '\n');
    CountAppend(Table(init, n) + Field(t), nl, '\n');
  }

  /** How many of `1 .. m` are multiples of `a`. */
  function Multiples(m: nat, a: nat): nat
    requires a > 0
  {
    if m == 0 then 0 else Multiples(m - 1, a) + (if m % a == 0 then 1 else 0)
  }

  lemma {:induction false} MultiplesDiv(m: nat, a: nat)
    requires a > 0
    ensures Multiples(m, a) == m / a
  {
    if m > 0 {
      MultiplesDiv(m - 1, a);
      DivStep(m, a);
    }
  }

  /** Token `i` ends a line exactly when `i` is a multiple of `|numCols|`. */
  lemma {:induction false} TableBreakCount(toks: seq<string>, n: int)
    requires n != 0 && BreakFree(toks)
    ensures Count(Table(toks, n), '\n') == Multiples(|toks|, Abs(n))
    decreases |toks|
  {
    if |toks| > 0 {
      BreakFreeInit(toks);
      TableBreakCount(toks[..|toks| - 1], n);
      CountStep(toks, n);
    }
  }

  /** One line break for every `numCols` numbers: `len(nums) // |numCols|` in all. */
  lemma TableBreaks(toks: seq<string>, n: int)
    requires n != 0 && BreakFree(toks)
    ensures Count(Table(toks, n), '\n') == |toks| / Abs(n)
  {
    TableBreakCount(toks, n);
    MultiplesDiv(|toks|, Abs(n));
  }

  /** A padded field, with or without its line break, reads back as its token. */
  lemma FieldWords(t: string, nl: string)
    requires 0 < |t| < FieldWidth && SepFree(t, Whitespace)
    requires nl == "" || nl == "\n"
    ensures Split(Field(t) + nl, Whitespace) == [t]
    ensures (Field(t) + nl)[|Field(t) + nl| - 1] in Whitespace
  {
    var pad := Spaces(FieldWidth - |t|);
    assert Field(t) + nl == t + (pad + nl);
    assert AllSeps(pad + nl, Whitespace);
    SplitAppend(t, pad + nl, Whitespace);
    SplitWord(t, Whitespace);
    SplitSeps(pad + nl, Whitespace);
  }

  /** Splitting the table at whitespace gives the tokens back, when every token is shorter than
      its field. */
  lemma {:induction false} TableReadBack(toks: seq<string>, n: int)
    requires n != 0
    requires forall k :: 0 <= k < |toks| ==> 0 < |toks[k]| < FieldWidth && SepFree(toks[k], Whitespace)
    ensures Split(Table(toks, n), Whitespace) == toks
    ensures |Table(toks, n)| == 0 || Table(toks, n)[|Table(toks, n)| - 1] in Whitespace
    decreases |toks|
  {
    var m := |toks|;
    if m > 0 {
      var init, t := toks[..m - 1], toks[m - 1];
      var nl := if PyMod(m, n) == 0 then "\n" else "";
      forall k | 0 <= k < |init| ensures 0 < |init[k]| < FieldWidth && SepFree(init[k], Whitespace) {
        assert init[k] == toks[k];
      }
      TableReadBack(init, n);
      FieldWords(t, nl);
      AppendAssoc(Table(init, n), Field(t), nl);
      SplitAppend(Table(init, n), Field(t) + nl, Whitespace);
      assert toks == init + [t];
    }
  }

  /** A token of 20 characters or more gets no padding, so unless a line break follows it, the
      next token is written right against it. */
  lemma LongTokenJoinsNext(t: string, u: string, n: int)
    requires |t| >= FieldWidth && n != 0 && n != 1 && n != -1
    ensures Table([t, u], n) == t + Field(u) + (if PyMod(2, n) == 0 then "\n" else "")
  {
    assert [t, u][..1] == [t];
    assert [t][..0] == [];
    assert PyMod(1, n) != 0;
    assert Table([t], n) == "" + Field(t) + "";
    assert Table([t], n) == t;
  }

  /** The outcome of a conversion: a file without numbers gives an empty file, `numCols == 0`
      raises, and otherwise the table of the file's numbers. */
  lemma ConvertOutcome(content: string, n: int)
    ensures Convert(content, n).Err? <==> |Tokens(content)| > 0 && n == 0
    ensures Convert(content, n).Err? ==> Convert(content, n).error == ZeroDivisionError
    ensures |Tokens(content)| == 0 ==> Convert(content, n) == Ok("")
  {
  }

  /** Converting a converted file again gives the same file, when every number is shorter than
      its field. */
  lemma ConvertIdempotent(content: string, n: int)
    requires n != 0
    requires forall k :: 0 <= k < |Tokens(content)| ==> |Tokens(content)[k]| < FieldWidth
    ensures Convert(content, n).Ok?
    ensures Tokens(Convert(content, n).value) == Tokens(content)
    ensures Convert(Convert(content, n).value, n) == Convert(content, n)
  {
    var toks := Tokens(content);
    TokensShape(content);
    if |toks| > 0 {
      var x := Table(toks, n);
      TableAvoids(toks, n, '[');
      TableAvoids(toks, n, ']');
      TableAvoids(toks, n, ',');
      RemoveCharAbsent(x, '[');
      RemoveCharAbsent(x, ']');
      RemoveCharAbsent(x, ',');
      assert Cleaned(x) == ReplaceChar(x, '\n', ' ');
      SplitReplace(x, '\n', ' ', Whitespace);
      TableReadBack(toks, n);
    } else {
      assert Cleaned("") == "";
    }
  }
}
