/** `convert_to_2d`, compare.py lines 386-402: the numbers of a text file, whatever brackets and
    commas surround them, laid out again as a table of `numCols` columns, each number
    left-justified in a field of 20 characters. */
module Reflow {
  import opened Text
  import opened Words
  import opened Results

  /** The width `'{:20}'` pads to. */
  const FieldWidth: nat := 20

  function Abs(n: int): nat
  {
    if n < 0 then -n else n
  }

  /** Python's `a % n`: the remainder of floor division, which takes the sign of `n`. Dafny's `%`
      is the Euclidean one, so a negative `n` is mapped onto a positive divisor. */
  function PyMod(a: int, n: int): (r: int)
    requires n != 0
    ensures n > 0 ==> 0 <= r < n
    ensures n < 0 ==> n < r <= 0
  {
    if n > 0 then a % n else -((-a) % (-n))
  }

  /** The text after `replace('[', '')`, `replace(']', '')`, `replace(',', '')` and
      `replace('\n', ' ')`. */
  function Cleaned(content: string): string
  {
    ReplaceChar(RemoveChar(RemoveChar(RemoveChar(content, '['), ']'), ','), '\n', ' ')
  }

  /** `content.split()` after the cleaning: the numbers of the file. */
  function Tokens(content: string): seq<string>
  {
    Split(Cleaned(content), Whitespace)
  }

  /** `'{:20}'.format(t)`: `t`, then spaces up to 20 characters; a longer `t` is not cut. */
  function Field(t: string): (f: string)
    ensures |f| == if |t| < FieldWidth then FieldWidth else |t|
    ensures f[..|t|] == t
    ensures forall i :: |t| <= i < |f| ==> f[i] == ' '
  {
    if |t| < FieldWidth then t + Spaces(FieldWidth - |t|) else t
  }

  /** What the write loop produces for `toks`: every token in its field, and a line break after
      token `i` (counting from 1) whenever `i % numCols == 0`. */
  function Table(toks: seq<string>, numCols: int): string
    requires numCols != 0
  {
    if |toks| == 0 then ""
    else Table(toks[..|toks| - 1], numCols) + Field(toks[|toks| - 1]) + (if PyMod(|toks|, numCols) == 0 then "\n" else "")
  }

  /** The new file, or the exception: `i % 0` raises on the first token, and a file without
      tokens never reaches it. */
  function Convert(content: string, numCols: int): Result<string>
  {
    var toks := Tokens(content);
    if |toks| == 0 then Ok("")
    else if numCols == 0 then Err(ZeroDivisionError)
    else Ok(Table(toks, numCols))
  }

  lemma TableSnoc(toks: seq<string>, numCols: int, i: nat)
    requires numCols != 0 && i < |toks|
    ensures Table(toks[..i + 1], numCols)
            == Table(toks[..i], numCols) + Field(toks[i]) + (if PyMod(i + 1, numCols) == 0 then "\n" else "")
  {
    assert toks[..i + 1][..i] == toks[..i];
  }

  /** The write loop of `convert_to_2d`. */
  method ConvertTo2d(content: string, numCols: int) returns (r: Result<string>)
    ensures r == Convert(content, numCols)
  {
    var nums := Tokens(content);
    var out := "";
    var i := 1;
    while i < |nums| + 1
      invariant 1 <= i <= |nums| + 1
      invariant i > 1 ==> numCols != 0
      invariant numCols != 0 ==> out == Table(nums[..i - 1], numCols)
      invariant numCols == 0 ==> out == ""
    {
      out := out + Field(nums[i - 1]);
      if numCols == 0 {
        return Err(ZeroDivisionError);
      }
      TableSnoc(nums, numCols, i - 1);
      if PyMod(i, numCols) == 0 {
        out := out + "\n";
      }
      i := i + 1;
    }
    if |nums| == 0 {
      return Ok("");
    }
    assert nums[..|nums|] == nums;
    r := Ok(out);
  }
}
