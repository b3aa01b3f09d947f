/** The pairing step of `auto_compare`, compare.py lines 111-132: the two `filenames.txt` lists
    are read line by line, must be equally long, and their `i`-th entries are compared with each
    other on three worksheets named after the files and the position. */
module Batch {
  import opened Text
  import opened Results

  /** One call of `compare`: the two files and the three sheet names. */
  datatype Pairing = Pairing(caffeFile: string, cppFile: string,
                             caffeSheet: string, cppSheet: string, errorSheet: string)

  /** `line.replace('\n', '')`: the file name a line of `filenames.txt` holds. */
  function FileName(line: string): string
  {
    RemoveChar(line, '\n')
  }

  /** `prefix + name[:-4]`: the name without its four-character extension. */
  function SheetName(prefix: string, name: string): string
  {
    prefix + DropLast(name, 4)
  }

  function ErrorSheet(i: nat): string
  {
    "error " + Str(i)
  }

  /** The `i`-th comparison. */
  function PairAt(caffeDir: string, cppDir: string, caffeLines: seq<string>, cppLines: seq<string>, i: nat): Pairing
    requires i < |caffeLines| && i < |cppLines|
  {
    var c, p := FileName(caffeLines[i]), FileName(cppLines[i]);
    Pairing(caffeDir + c, cppDir + p, SheetName("caffe_", c), SheetName("vivado_", p), ErrorSheet(i))
  }

  /** The first `n` comparisons, in order. */
  function PairsUpTo(caffeDir: string, cppDir: string, caffeLines: seq<string>, cppLines: seq<string>, n: nat)
    : (ps: seq<Pairing>)
    requires n <= |caffeLines| && n <= |cppLines|
    ensures |ps| == n
    ensures forall i {:trigger ps[i]} :: 0 <= i < n ==> ps[i] == PairAt(caffeDir, cppDir, caffeLines, cppLines, i)
  {
    if n == 0 then []
    else PairsUpTo(caffeDir, cppDir, caffeLines, cppLines, n - 1) + [PairAt(caffeDir, cppDir, caffeLines, cppLines, n - 1)]
  }

  /** Every comparison `auto_compare` makes, or the failed length assertion. */
  function Pairings(caffeDir: string, cppDir: string, caffeLines: seq<string>, cppLines: seq<string>)
    : Result<seq<Pairing>>
  {
    if |caffeLines| != |cppLines| then Err(AssertionError)
    else Ok(PairsUpTo(caffeDir, cppDir, caffeLines, cppLines, |caffeLines|))
  }

  /** The loop of `auto_compare`, collecting the arguments of each `compare` call. */
  method AutoCompare(caffeDir: string, cppDir: string, caffeLines: seq<string>, cppLines: seq<string>)
    returns (r: Result<seq<Pairing>>)
    ensures r == Pairings(caffeDir, cppDir, caffeLines, cppLines)
  {
    if |caffeLines| != |cppLines| {
      return Err(AssertionError);
    }
    var numFiles := |caffeLines|;
    var calls: seq<Pairing> := [];
    var i := 0;
    while i < numFiles
      invariant 0 <= i <= numFiles
      invariant calls == PairsUpTo(caffeDir, cppDir, caffeLines, cppLines, i)
    {
      var caffeFileName := RemoveChar(caffeLines[i], '\n');
      var cppFileName := RemoveChar(cppLines[i], '\n');
      var caffePath := caffeDir + caffeFileName;
      var cppPath := cppDir + cppFileName;
      calls := calls + [Pairing(caffePath, cppPath, "caffe_" + DropLast(caffeFileName, 4),
                                "vivado_" + DropLast(cppFileName, 4), "error " + Str(i))];
      i := i + 1;
    }
    r := Ok(calls);
  }
}
