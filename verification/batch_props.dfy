/** What `auto_compare` promises about its comparisons: one per pair of lines, in order, each on
    its own error sheet. */
module BatchProps {
  import opened Text
  import opened Results
  import opened Batch

  /** The run stops exactly when the two lists differ in length, with an `AssertionError`;
      otherwise comparison `i` pairs the `i`-th file of each list, its directory prepended and its
      line break removed. */
  lemma PairingsOutcome(caffeDir: string, cppDir: string, caffeLines: seq<string>, cppLines: seq<string>)
    ensures Pairings(caffeDir, cppDir, caffeLines, cppLines).Err? <==> |caffeLines| != |cppLines|
    ensures Pairings(caffeDir, cppDir, caffeLines, cppLines).Err? ==>
              Pairings(caffeDir, cppDir, caffeLines, cppLines).error == AssertionError
    ensures Pairings(caffeDir, cppDir, caffeLines, cppLines).Ok? ==>
              var ps := Pairings(caffeDir, cppDir, caffeLines, cppLines).value;
              |ps| == |caffeLines|
              && forall i :: 0 <= i < |ps| ==>
                   ps[i].caffeFile == caffeDir + FileName(caffeLines[i])
                   && ps[i].cppFile == cppDir + FileName(cppLines[i])
                   && ps[i].caffeSheet == SheetName("caffe_", FileName(caffeLines[i]))
                   && ps[i].cppSheet == SheetName("vivado_", FileName(cppLines[i]))
                   && ps[i].errorSheet == ErrorSheet(i)
  {
  }

  /** A line read back from a list, with or without its line break, is the name that was
      written. */
  lemma FileNameOfLine(name: string)
    requires forall i :: 0 <= i < |name| ==> name[i] != '\n'
    ensures FileName(name + "\n") == name
    ensures FileName(name) == name
  {
    RemoveCharAbsent(name, '\n');
  }

  /** A sheet name is the prefix and the file name with its last four characters (the
      extension) cut; a name of four characters or fewer leaves only the prefix. */
  lemma SheetNameExtension(prefix: string, name: string)
    ensures |name| >= 4 ==> SheetName(prefix, name) + name[|name| - 4..] == prefix + name
    ensures |name| <= 4 ==> SheetName(prefix, name) == prefix
  {
    if |name| >= 4 {
      assert name[..|name| - 4] + name[|name| - 4..] == name;
      AppendAssoc(prefix, name[..|name| - 4], name[|name| - 4..]);
    }
  }

  lemma ErrorSheetInjective(i: nat, j: nat)
    ensures ErrorSheet(i) == ErrorSheet(j) <==> i == j
  {
    if ErrorSheet(i) == ErrorSheet(j) {
      assert ErrorSheet(i)[6..] == Str(i);
      assert ErrorSheet(j)[6..] == Str(j);
      StrInjective(i, j);
    }
  }

  /** Every comparison gets an error sheet of its own. */
  lemma ErrorSheetsDistinct(caffeDir: string, cppDir: string, caffeLines: seq<string>, cppLines: seq<string>)
    requires Pairings(caffeDir, cppDir, caffeLines, cppLines).Ok?
    ensures var ps := Pairings(caffeDir, cppDir, caffeLines, cppLines).value;
            forall i, j :: 0 <= i < j < |ps| ==> ps[i].errorSheet != ps[j].errorSheet
  {
    var ps := Pairings(caffeDir, cppDir, caffeLines, cppLines).value;
    forall i, j | 0 <= i < j < |ps| ensures ps[i].errorSheet != ps[j].errorSheet {
      ErrorSheetInjective(i, j);
    }
  }

  /** The `caffe_` and `vivado_` sheets are named after the file stem alone, so two files that
      differ only in their extension, here `a.txt` and `a.csv`, ask for the same sheet. */
  lemma CaffeSheetsCollide()
    ensures var r := Pairings("", "", ["a.txt\n", "a.csv\n"], ["b.txt\n", "c.txt\n"]);
            r.Ok? && |r.value| == 2 && r.value[0].caffeSheet == r.value[1].caffeSheet == "caffe_a"
  {
    var caffeLines, cppLines := ["a.txt\n", "a.csv\n"], ["b.txt\n", "c.txt\n"];
    PairingsOutcome("", "", caffeLines, cppLines);
    assert caffeLines[0] == "a" + ".txt" + "\n";
    assert caffeLines[1] == "a" + ".csv" + "\n";
    StemSheet("a", ".txt");
    StemSheet("a", ".csv");
  }

  /** A line `stem + ext`, with a four-character extension, gets the sheet `caffe_ + stem`. */
  lemma StemSheet(stem: string, ext: string)
    requires |ext| == 4
    requires forall i :: 0 <= i < |stem + ext| ==> (stem + ext)[i] != '\n'
    ensures SheetName("caffe_", FileName(stem + ext + "\n")) == "caffe_" + stem
  {
    FileNameOfLine(stem + ext);
    assert (stem + ext)[..|stem + ext| - 4] == stem;
  }
}
