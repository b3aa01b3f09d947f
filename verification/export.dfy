/** `write_caffe_files`, compare.py lines 153-370: the files it writes for a network's blobs and
    layer parameters, in the order it finishes them, or the exception it stops at.

    The network is given as its blobs (name and array, in the order of `net.blobs`) and its layers
    (name, weight array, bias vector, in the order of `net.params`). Directory names are plain
    prefixes, as in the source, which concatenates them with the file names. */
module Export {
  import opened Text
  import opened Tensors
  import opened Results
  import opened Initializer
  import opened ChunkWriter
  import opened Blobs

  datatype Layer<V> = Layer(name: string, weights: Tensor<V>, bias: seq<V>)

  datatype File = File(path: string, text: string)

  datatype Dirs = Dirs(blobs: string, weights: string, bias: string)

  predicate BlobsValid<V>(blobs: seq<(string, Tensor<V>)>)
  {
    forall k :: 0 <= k < |blobs| ==> blobs[k].1.Valid()
  }

  predicate LayersValid<V>(layers: seq<Layer<V>>)
  {
    forall k :: 0 <= k < |layers| ==> layers[k].weights.Valid()
  }

  function WeightsFileName(name: string): string
  {
    name + "_weights.txt"
  }

  function BiasFileName(name: string): string
  {
    name + "_bias.txt"
  }

  // ---------------------------------------------------------------- the blob phase

  /** The blob files, one per blob, in order. */
  function BlobFiles<V>(fmt: V -> string, dir: string, blobs: seq<(string, Tensor<V>)>): Result<seq<File>>
    requires BlobsValid(blobs)
  {
    if |blobs| == 0 then Ok([])
    else
      var (name, t) := blobs[|blobs| - 1];
      match BlobFiles(fmt, dir, blobs[..|blobs| - 1])
      case Err(e) => Err(e)
      case Ok(fs) =>
        match BlobOf(fmt, t)
        case Err(e) => Err(e)
        case Ok(text) => Ok(fs + [File(dir + BlobPath(name), text)])
  }

  /** The content of `blob_filenames.txt`. */
  function BlobManifest<V>(blobs: seq<(string, Tensor<V>)>): string
  {
    if |blobs| == 0 then "" else BlobManifest(blobs[..|blobs| - 1]) + BlobManifestLine(blobs[|blobs| - 1].0)
  }

  // ---------------------------------------------------------------- the parameter phase

  /** A rank-4 weight whose innermost rows are empty while rows exist: `W[i][j][k][0]` fails. */
  predicate Rank4Fails<V>(w: seq<seq<seq<seq<V>>>>, d1: nat, d2: nat, d3: nat)
  {
    |w| > 0 && d1 > 0 && d2 > 0 && d3 == 0
  }

  predicate KnownDims(dims: string)
  {
    dims == "3d" || dims == "2d"
  }

  /** The chunk files of a rank-2 weight, placed in the weights directory. */
  function InDir(dir: string, fs: seq<ChunkFile>): (out: seq<File>)
    ensures |out| == |fs|
    ensures forall k {:trigger out[k]} :: 0 <= k < |fs| ==> out[k] == File(dir + fs[k].name, fs[k].text)
  {
    if |fs| == 0 then [] else InDir(dir, fs[..|fs| - 1]) + [File(dir + fs[|fs| - 1].name, fs[|fs| - 1].text)]
  }

  /** The files holding one layer's weights: none for an unknown `dims`; for a rank-2 weight the
      chunk files, then the weights file listing them. */
  function WeightFiles<V>(fmt: V -> string, dir: string, name: string, t: Tensor<V>, dims: string): Result<seq<File>>
    requires t.Valid()
  {
    var path := dir + WeightsFileName(name);
    if !KnownDims(dims) then Ok([])
    else
      match t
      case Rank4(w, d1, d2, d3) =>
        if Rank4Fails(w, d1, d2, d3) then Err(IndexError)
        else if dims == "3d" then Ok([File(path, Weights3d(fmt, w, d1, d2))])
        else Ok([File(path, Weights2d(fmt, w))])
      case Rank2(m, _) =>
        if !NoEmptyRow(m) then Err(IndexError)
        else Ok(InDir(dir, Chunks(fmt, name, m)) + [File(path, IndexLines(Chunks(fmt, name, m)))])
      case OtherRank => Ok([File(path, "")])
  }

  /** One layer: its weight files, then its bias file; an empty bias fails at `B[0]`. */
  function LayerFiles<V>(fmt: V -> string, dirs: Dirs, l: Layer<V>, dims: string): Result<seq<File>>
    requires l.weights.Valid()
  {
    match WeightFiles(fmt, dirs.weights, l.name, l.weights, dims)
    case Err(e) => Err(e)
    case Ok(wf) =>
      if |l.bias| == 0 then Err(IndexError)
      else Ok(wf + [File(dirs.bias + BiasFileName(l.name), BiasText(fmt, l.bias))])
  }

  function ParamFiles<V>(fmt: V -> string, dirs: Dirs, layers: seq<Layer<V>>, dims: string): Result<seq<File>>
    requires LayersValid(layers)
  {
    if |layers| == 0 then Ok([])
    else
      match ParamFiles(fmt, dirs, layers[..|layers| - 1], dims)
      case Err(e) => Err(e)
      case Ok(fs) =>
        match LayerFiles(fmt, dirs, layers[|layers| - 1], dims)
        case Err(e) => Err(e)
        case Ok(lf) => Ok(fs + lf)
  }

  /** `<name><suffix>` on a line of its own for every layer: the content of
      `weights_filenames.txt` and `bias_filenames.txt`. */
  function NameList<V>(layers: seq<Layer<V>>, suffix: string): string
  {
    if |layers| == 0 then "" else NameList(layers[..|layers| - 1], suffix) + layers[|layers| - 1].name + suffix + "\n"
  }

  /** Everything `write_caffe_files` writes: the blob files, the blob list, the parameter files,
      then the weights and bias lists. */
  function ExportFiles<V>(fmt: V -> string, dirs: Dirs, blobs: seq<(string, Tensor<V>)>, layers: seq<Layer<V>>, dims: string)
    : Result<seq<File>>
    requires BlobsValid(blobs) && LayersValid(layers)
  {
    match BlobFiles(fmt, dirs.blobs, blobs)
    case Err(e) => Err(e)
    case Ok(bf) =>
      match ParamFiles(fmt, dirs, layers, dims)
      case Err(e) => Err(e)
      case Ok(pf) =>
        Ok(bf + [File(dirs.blobs + "blob_filenames.txt", BlobManifest(blobs))] + pf
           + [File(dirs.weights + "weights_filenames.txt", NameList(layers, "_weights.txt")),
              File(dirs.bias + "bias_filenames.txt", NameList(layers, "_bias.txt"))])
  }

  // ---------------------------------------------------------------- the loops of compare.py

  lemma BlobsStep<V>(fmt: V -> string, dir: string, blobs: seq<(string, Tensor<V>)>, k: nat)
    requires BlobsValid(blobs) && k < |blobs|
    ensures BlobsValid(blobs[..k]) && BlobsValid(blobs[..k + 1])
    ensures BlobFiles(fmt, dir, blobs[..k + 1])
            == match BlobFiles(fmt, dir, blobs[..k])
               case Err(e) => Err(e)
               case Ok(fs) =>
                 match BlobOf(fmt, blobs[k].1)
                 case Err(e) => Err(e)
                 case Ok(text) => Ok(fs + [File(dir + BlobPath(blobs[k].0), text)])
    ensures BlobManifest(blobs[..k + 1]) == BlobManifest(blobs[..k]) + BlobManifestLine(blobs[k].0)
  {
    SnocInit(blobs[..k], blobs[k]);
    assert blobs[..k + 1] == blobs[..k] + [blobs[k]];
  }

  /** The blob loop: a line of `blob_filenames.txt`, then the blob's file. */
  method WriteBlobs<V>(fmt: V -> string, dir: string, blobs: seq<(string, Tensor<V>)>)
    returns (r: Result<seq<File>>, manifest: string)
    requires BlobsValid(blobs)
    ensures r == BlobFiles(fmt, dir, blobs)
    ensures r.Ok? ==> manifest == BlobManifest(blobs)
    ensures r.Err? ==> exists k :: 0 <= k < |blobs| && BlobOf(fmt, blobs[k].1).Err?
                                   && manifest == BlobManifest(blobs[..k + 1])
  {
    var files: seq<File> := [];
    manifest := "";
    var k := 0;
    while k < |blobs|
      invariant 0 <= k <= |blobs| && BlobsValid(blobs[..k])
      invariant BlobFiles(fmt, dir, blobs[..k]) == Ok(files)
      invariant manifest == BlobManifest(blobs[..k])
    {
      BlobsStep(fmt, dir, blobs, k);
      var (name, t) := blobs[k];
      manifest := manifest + BlobManifestLine(name);
      var text := RenderBlob(fmt, t);
      if text.Err? {
        TakeAll(blobs);
        BlobsFailLater(fmt, dir, blobs, k + 1);
        return Err(text.error), manifest;
      }
      files := files + [File(dir + BlobPath(name), text.value)];
      k := k + 1;
    }
    TakeAll(blobs);
    r := Ok(files);
  }

  /** Once the blob phase has failed, it stays failed. */
  lemma {:induction false} BlobsFailLater<V>(fmt: V -> string, dir: string, blobs: seq<(string, Tensor<V>)>, k: nat)
    requires BlobsValid(blobs) && k <= |blobs| && BlobFiles(fmt, dir, blobs[..k]).Err?
    ensures BlobFiles(fmt, dir, blobs) == BlobFiles(fmt, dir, blobs[..k])
    decreases |blobs| - k
  {
    if k < |blobs| {
      BlobsStep(fmt, dir, blobs, k);
      BlobsFailLater(fmt, dir, blobs, k + 1);
    } else {
      TakeAll(blobs);
    }
  }

  /** The weights of one layer: the branch on `dimensions`, then on the rank. */
  method WriteWeights<V>(fmt: V -> string, dir: string, name: string, t: Tensor<V>, dims: string)
    returns (r: Result<seq<File>>)
    requires t.Valid()
    ensures r == WeightFiles(fmt, dir, name, t, dims)
  {
    var path := dir + WeightsFileName(name);
    if dims == "3d" || dims == "2d" {
      match t
      case Rank4(w, d1, d2, d3) =>
        if |w| > 0 && d1 > 0 && d2 > 0 && d3 == 0 {
          return Err(IndexError);
        }
        var s: string;
        if dims == "3d" {
          s := RenderWeights3d(fmt, w, d1, d2, d3);
        } else {
          s := RenderWeights2d(fmt, w, d1, d2, d3);
        }
        r := Ok([File(path, s)]);
      case Rank2(m, _) =>
        var c := WriteChunks(fmt, name, m);
        if c.Err? {
          return Err(c.error);
        }
        r := Ok(InDir(dir, c.value.files) + [File(path, c.value.index)]);
      case OtherRank =>
        r := Ok([File(path, "")]);
    } else {
      r := Ok([]);
    }
  }

  /** One pass of the layer loop: weights, then bias. */
  method WriteLayer<V>(fmt: V -> string, dirs: Dirs, l: Layer<V>, dims: string) returns (r: Result<seq<File>>)
    requires l.weights.Valid()
    ensures r == LayerFiles(fmt, dirs, l, dims)
  {
    var wf := WriteWeights(fmt, dirs.weights, l.name, l.weights, dims);
    if wf.Err? {
      return Err(wf.error);
    }
    if |l.bias| == 0 {
      return Err(IndexError);
    }
    var b := RenderBias(fmt, l.bias);
    r := Ok(wf.value + [File(dirs.bias + BiasFileName(l.name), b)]);
  }

  lemma LayersStep<V>(fmt: V -> string, dirs: Dirs, layers: seq<Layer<V>>, dims: string, k: nat)
    requires LayersValid(layers) && k < |layers|
    ensures LayersValid(layers[..k]) && LayersValid(layers[..k + 1])
    ensures ParamFiles(fmt, dirs, layers[..k + 1], dims)
            == match ParamFiles(fmt, dirs, layers[..k], dims)
               case Err(e) => Err(e)
               case Ok(fs) =>
                 match LayerFiles(fmt, dirs, layers[k], dims)
                 case Err(e) => Err(e)
                 case Ok(lf) => Ok(fs + lf)
    ensures NameList(layers[..k + 1], "_weights.txt") == NameList(layers[..k], "_weights.txt") + layers[k].name + "_weights.txt" + "\n"
    ensures NameList(layers[..k + 1], "_bias.txt") == NameList(layers[..k], "_bias.txt") + layers[k].name + "_bias.txt" + "\n"
  {
    SnocInit(layers[..k], layers[k]);
    assert layers[..k + 1] == layers[..k] + [layers[k]];
  }

  lemma {:induction false} ParamsFailLater<V>(fmt: V -> string, dirs: Dirs, layers: seq<Layer<V>>, dims: string, k: nat)
    requires LayersValid(layers) && k <= |layers| && ParamFiles(fmt, dirs, layers[..k], dims).Err?
    ensures ParamFiles(fmt, dirs, layers, dims) == ParamFiles(fmt, dirs, layers[..k], dims)
    decreases |layers| - k
  {
    if k < |layers| {
      LayersStep(fmt, dirs, layers, dims, k);
      ParamsFailLater(fmt, dirs, layers, dims, k + 1);
    } else {
      TakeAll(layers);
    }
  }

  /** The layer loop, with the two name lists it keeps. */
  method WriteParams<V>(fmt: V -> string, dirs: Dirs, layers: seq<Layer<V>>, dims: string)
    returns (r: Result<seq<File>>, weightsList: string, biasList: string)
    requires LayersValid(layers)
    ensures r == ParamFiles(fmt, dirs, layers, dims)
    ensures r.Ok? ==> weightsList == NameList(layers, "_weights.txt") && biasList == NameList(layers, "_bias.txt")
  {
    var files: seq<File> := [];
    weightsList, biasList := "", "";
    var k := 0;
    while k < |layers|
      invariant 0 <= k <= |layers| && LayersValid(layers[..k])
      invariant ParamFiles(fmt, dirs, layers[..k], dims) == Ok(files)
      invariant weightsList == NameList(layers[..k], "_weights.txt")
      invariant biasList == NameList(layers[..k], "_bias.txt")
    {
      LayersStep(fmt, dirs, layers, dims, k);
      weightsList := weightsList + layers[k].name + "_weights.txt" + "\n";
      biasList := biasList + layers[k].name + "_bias.txt" + "\n";
      var lf := WriteLayer(fmt, dirs, layers[k], dims);
      if lf.Err? {
        ParamsFailLater(fmt, dirs, layers, dims, k + 1);
        TakeAll(layers);
        return Err(lf.error), weightsList, biasList;
      }
      files := files + lf.value;
      k := k + 1;
    }
    TakeAll(layers);
    r := Ok(files);
  }

  /** `write_caffe_files`: the blob loop, then the layer loop. */
  method WriteCaffeFiles<V>(fmt: V -> string, dirs: Dirs, blobs: seq<(string, Tensor<V>)>, layers: seq<Layer<V>>,
                            dims: string)
    returns (r: Result<seq<File>>)
    requires BlobsValid(blobs) && LayersValid(layers)
    ensures r == ExportFiles(fmt, dirs, blobs, layers, dims)
  {
    var bf, manifest := WriteBlobs(fmt, dirs.blobs, blobs);
    if bf.Err? {
      return Err(bf.error);
    }
    var pf, weightsList, biasList := WriteParams(fmt, dirs, layers, dims);
    if pf.Err? {
      return Err(pf.error);
    }
    r := Ok(bf.value + [File(dirs.blobs + "blob_filenames.txt", manifest)] + pf.value
            + [File(dirs.weights + "weights_filenames.txt", weightsList),
               File(dirs.bias + "bias_filenames.txt", biasList)]);
  }
}
