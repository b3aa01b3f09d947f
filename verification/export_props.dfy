/** What `write_caffe_files` promises as a whole: which networks make it stop, with which
    exception, and which files a successful run leaves behind. */
module ExportProps {
  import opened Text
  import opened Words
  import opened Tensors
  import opened Results
  import opened Initializer
  import opened ChunkWriter
  import opened Blobs
  import opened Export

  /** A rank-2 blob without rows: the column count `len(W[0])` does not exist. */
  predicate BlobFails<V>(t: Tensor<V>)
  {
    t.Rank2? && |t.m| == 0
  }

  /** The weight loops reach a missing `[0]` element: an empty innermost row of a rank-4 weight,
      or an empty row of a rank-2 weight. An unknown `dimensions` writes no weights at all. */
  predicate WeightsFail<V>(t: Tensor<V>, dims: string)
  {
    KnownDims(dims)
    && ((t.Rank4? && Rank4Fails(t.w, t.d1, t.d2, t.d3)) || (t.Rank2? && !NoEmptyRow(t.m)))
  }

  /** A layer stops the run at its weights, or at `B[0]` of an empty bias. */
  predicate LayerFails<V>(l: Layer<V>, dims: string)
  {
    WeightsFail(l.weights, dims) || |l.bias| == 0
  }

  predicate SomeBlobFails<V>(blobs: seq<(string, Tensor<V>)>)
  {
    exists k :: 0 <= k < |blobs| && BlobFails(blobs[k].1)
  }

  predicate SomeLayerFails<V>(layers: seq<Layer<V>>, dims: string)
  {
    exists k :: 0 <= k < |layers| && LayerFails(layers[k], dims)
  }

  /** The bias file of a layer. */
  function BiasFile<V>(fmt: V -> string, dirs: Dirs, l: Layer<V>): File
    requires |l.bias| > 0
  {
    File(dirs.bias + BiasFileName(l.name), BiasText(fmt, l.bias))
  }

  // ---------------------------------------------------------------- the blob phase

  lemma BlobOfFails<V>(fmt: V -> string, t: Tensor<V>)
    requires t.Valid()
    ensures BlobOf(fmt, t).Err? <==> BlobFails(t)
    ensures BlobOf(fmt, t).Err? ==> BlobOf(fmt, t).error == IndexError
  {
  }

  lemma SomeBlobFailsSnoc<V>(blobs: seq<(string, Tensor<V>)>)
    requires |blobs| > 0
    ensures SomeBlobFails(blobs) <==> SomeBlobFails(blobs[..|blobs| - 1]) || BlobFails(blobs[|blobs| - 1].1)
  {
    var init := blobs[..|blobs| - 1];
    if SomeBlobFails(init) {
      var k :| 0 <= k < |init| && BlobFails(init[k].1);
      assert blobs[k] == init[k];
    }
    if SomeBlobFails(blobs) {
      var k :| 0 <= k < |blobs| && BlobFails(blobs[k].1);
      if k < |init| {
        assert blobs[k] == init[k];
      }
    }
  }

  /** The blob phase stops exactly when some rank-2 blob has no rows, always with an
      `IndexError`; otherwise it writes one file per blob, blob `k` to `<dir><name>.txt` with the
      text `BlobOf` gives it. */
  lemma {:induction false} BlobPhase<V>(fmt: V -> string, dir: string, blobs: seq<(string, Tensor<V>)>)
    requires BlobsValid(blobs)
    ensures BlobFiles(fmt, dir, blobs).Err? <==> SomeBlobFails(blobs)
    ensures BlobFiles(fmt, dir, blobs).Err? ==> BlobFiles(fmt, dir, blobs).error == IndexError
    ensures BlobFiles(fmt, dir, blobs).Ok? ==>
              var fs := BlobFiles(fmt, dir, blobs).value;
              |fs| == |blobs|
              && forall k :: 0 <= k < |blobs| ==>
                   fs[k].path == dir + BlobPath(blobs[k].0) && BlobOf(fmt, blobs[k].1) == Ok(fs[k].text)
    decreases |blobs|
  {
    var n := |blobs|;
    if n > 0 {
      var init := blobs[..n - 1];
      assert BlobsValid(init) by {
        forall k | 0 <= k < |init| ensures init[k].1.Valid() {
          assert init[k] == blobs[k];
        }
      }
      BlobPhase(fmt, dir, init);
      BlobOfFails(fmt, blobs[n - 1].1);
      SomeBlobFailsSnoc(blobs);
      var r := BlobFiles(fmt, dir, blobs);
      if r.Ok? {
        var fs0 := BlobFiles(fmt, dir, init).value;
        forall k | 0 <= k < n
          ensures r.value[k].path == dir + BlobPath(blobs[k].0) && BlobOf(fmt, blobs[k].1) == Ok(r.value[k].text)
        {
          if k < n - 1 {
            assert r.value[k] == fs0[k];
            assert blobs[k] == init[k];
          }
        }
      }
    }
  }

  // ---------------------------------------------------------------- the parameter phase

  /** The weights of a layer stop the run exactly when `WeightsFail` says so, with an
      `IndexError`; an unknown `dimensions` writes nothing; otherwise the last file written is the
      layer's weights file. */
  lemma WeightsPhase<V>(fmt: V -> string, dir: string, name: string, t: Tensor<V>, dims: string)
    requires t.Valid()
    ensures WeightFiles(fmt, dir, name, t, dims).Err? <==> WeightsFail(t, dims)
    ensures WeightFiles(fmt, dir, name, t, dims).Err? ==> WeightFiles(fmt, dir, name, t, dims).error == IndexError
    ensures !KnownDims(dims) ==> WeightFiles(fmt, dir, name, t, dims) == Ok([])
    ensures KnownDims(dims) && WeightFiles(fmt, dir, name, t, dims).Ok? ==>
              var fs := WeightFiles(fmt, dir, name, t, dims).value;
              |fs| > 0 && fs[|fs| - 1].path == dir + WeightsFileName(name)
  {
  }

  /** A layer stops the run exactly when `LayerFails` says so, with an `IndexError`; otherwise its
      last file is the bias file, and with an unknown `dimensions` it is the only one. */
  lemma LayerPhase<V>(fmt: V -> string, dirs: Dirs, l: Layer<V>, dims: string)
    requires l.weights.Valid()
    ensures LayerFiles(fmt, dirs, l, dims).Err? <==> LayerFails(l, dims)
    ensures LayerFiles(fmt, dirs, l, dims).Err? ==> LayerFiles(fmt, dirs, l, dims).error == IndexError
    ensures LayerFiles(fmt, dirs, l, dims).Ok? ==>
              var fs := LayerFiles(fmt, dirs, l, dims).value;
              |l.bias| > 0 && |fs| > 0 && fs[|fs| - 1] == BiasFile(fmt, dirs, l)
    ensures !KnownDims(dims) && |l.bias| > 0 ==> LayerFiles(fmt, dirs, l, dims) == Ok([BiasFile(fmt, dirs, l)])
  {
    WeightsPhase(fmt, dirs.weights, l.name, l.weights, dims);
    if !KnownDims(dims) && |l.bias| > 0 {
      EmptyPrefix([], [BiasFile(fmt, dirs, l)]);
    }
  }

  lemma SomeLayerFailsSnoc<V>(layers: seq<Layer<V>>, dims: string)
    requires |layers| > 0
    ensures SomeLayerFails(layers, dims)
            <==> SomeLayerFails(layers[..|layers| - 1], dims) || LayerFails(layers[|layers| - 1], dims)
  {
    var init := layers[..|layers| - 1];
    if SomeLayerFails(init, dims) {
      var k :| 0 <= k < |init| && LayerFails(init[k], dims);
      assert layers[k] == init[k];
    }
    if SomeLayerFails(layers, dims) {
      var k :| 0 <= k < |layers| && LayerFails(layers[k], dims);
      if k < |init| {
        assert layers[k] == init[k];
      }
    }
  }

  lemma LayersValidInit<V>(layers: seq<Layer<V>>)
    requires LayersValid(layers) && |layers| > 0
    ensures LayersValid(layers[..|layers| - 1])
  {
    var init := layers[..|layers| - 1];
    forall k | 0 <= k < |init| ensures init[k].weights.Valid() {
      assert init[k] == layers[k];
    }
  }

  /** The layer loop stops exactly when some layer fails, with an `IndexError`. */
  lemma {:induction false} ParamPhase<V>(fmt: V -> string, dirs: Dirs, layers: seq<Layer<V>>, dims: string)
    requires LayersValid(layers)
    ensures ParamFiles(fmt, dirs, layers, dims).Err? <==> SomeLayerFails(layers, dims)
    ensures ParamFiles(fmt, dirs, layers, dims).Err? ==> ParamFiles(fmt, dirs, layers, dims).error == IndexError
    decreases |layers|
  {
    var n := |layers|;
    if n > 0 {
      LayersValidInit(layers);
      ParamPhase(fmt, dirs, layers[..n - 1], dims);
      LayerPhase(fmt, dirs, layers[n - 1], dims);
      SomeLayerFailsSnoc(layers, dims);
    }
  }

  /** With an unknown `dimensions` the layer loop writes only the bias files, one per layer, in
      order. */
  lemma {:induction false} UnknownDimsOnlyBias<V>(fmt: V -> string, dirs: Dirs, layers: seq<Layer<V>>, dims: string)
    requires LayersValid(layers) && !KnownDims(dims)
    ensures ParamFiles(fmt, dirs, layers, dims).Ok? ==>
              var fs := ParamFiles(fmt, dirs, layers, dims).value;
              |fs| == |layers|
              && forall k :: 0 <= k < |layers| ==> |layers[k].bias| > 0 && fs[k] == BiasFile(fmt, dirs, layers[k])
    decreases |layers|
  {
    var n := |layers|;
    if n > 0 {
      var init := layers[..n - 1];
      LayersValidInit(layers);
      UnknownDimsOnlyBias(fmt, dirs, init, dims);
      LayerPhase(fmt, dirs, layers[n - 1], dims);
      var r := ParamFiles(fmt, dirs, layers, dims);
      if r.Ok? {
        var fs0 := ParamFiles(fmt, dirs, init, dims).value;
        forall k | 0 <= k < n
          ensures |layers[k].bias| > 0 && r.value[k] == BiasFile(fmt, dirs, layers[k])
        {
          if k < n - 1 {
            assert r.value[k] == fs0[k];
            assert layers[k] == init[k];
          }
        }
      }
    }
  }

  // ---------------------------------------------------------------- the whole run

  /** The run stops exactly when a blob or a layer fails, always with an `IndexError`. Otherwise
      it writes the blob files, then `blob_filenames.txt`, then the parameter files, then
      `weights_filenames.txt` and `bias_filenames.txt`; the three lists are written whatever
      `dimensions` is. */
  lemma ExportOutcome<V>(fmt: V -> string, dirs: Dirs, blobs: seq<(string, Tensor<V>)>, layers: seq<Layer<V>>, dims: string)
    requires BlobsValid(blobs) && LayersValid(layers)
    ensures ExportFiles(fmt, dirs, blobs, layers, dims).Err? <==> SomeBlobFails(blobs) || SomeLayerFails(layers, dims)
    ensures ExportFiles(fmt, dirs, blobs, layers, dims).Err? ==> ExportFiles(fmt, dirs, blobs, layers, dims).error == IndexError
    ensures ExportFiles(fmt, dirs, blobs, layers, dims).Ok? ==>
              var fs := ExportFiles(fmt, dirs, blobs, layers, dims).value;
              |fs| >= |blobs| + 3
              && fs[|blobs|] == File(dirs.blobs + "blob_filenames.txt", BlobManifest(blobs))
              && fs[|fs| - 2] == File(dirs.weights + "weights_filenames.txt", NameList(layers, "_weights.txt"))
              && fs[|fs| - 1] == File(dirs.bias + "bias_filenames.txt", NameList(layers, "_bias.txt"))
  {
    BlobPhase(fmt, dirs.blobs, blobs);
    ParamPhase(fmt, dirs, layers, dims);
  }

  // ---------------------------------------------------------------- the name lists

  /** Appending a line to text that ends at a line break adds that line as one more word. */
  lemma LineStep(pre: string, x: string)
    requires |x| > 0 && SepFree(x, {'\n'})
    requires |pre| == 0 || pre[|pre| - 1] == '\n'
    ensures Split(pre + x + "\n", {'\n'}) == Split(pre, {'\n'}) + [x]
  {
    AppendAssoc(pre, x, "\n");
    SplitAppend(pre, x + "\n", {'\n'});
    SplitAppend(x, "\n", {'\n'});
    SplitWord(x, {'\n'});
    SplitSeps("\n", {'\n'});
  }

  /** Read line by line, `blob_filenames.txt` lists `<blob>_blob.txt` for every blob, in order. */
  lemma {:induction false} ManifestLines<V>(blobs: seq<(string, Tensor<V>)>)
    requires forall k :: 0 <= k < |blobs| ==> SepFree(blobs[k].0, {'\n'})
    ensures |BlobManifest(blobs)| == 0 || BlobManifest(blobs)[|BlobManifest(blobs)| - 1] == '\n'
    ensures |Split(BlobManifest(blobs), {'\n'})| == |blobs|
    ensures forall k :: 0 <= k < |blobs| ==> Split(BlobManifest(blobs), {'\n'})[k] == blobs[k].0 + "_blob.txt"
    decreases |blobs|
  {
    var n := |blobs|;
    if n > 0 {
      var init, x := blobs[..n - 1], blobs[n - 1].0 + "_blob.txt";
      forall k | 0 <= k < |init| ensures SepFree(init[k].0, {'\n'}) {
        assert init[k] == blobs[k];
      }
      ManifestLines(init);
      assert x == blobs[n - 1].0 + "_blob.txt";
      assert SepFree(x, {'\n'});
      assert BlobManifest(blobs) == BlobManifest(init) + x + "\n";
      LineStep(BlobManifest(init), x);
      forall k | 0 <= k < n ensures Split(BlobManifest(blobs), {'\n'})[k] == blobs[k].0 + "_blob.txt" {
        if k < n - 1 {
          assert blobs[k] == init[k];
        }
      }
    }
  }

  /** Read line by line, `weights_filenames.txt` (suffix `_weights.txt`) and `bias_filenames.txt`
      (suffix `_bias.txt`) list `<layer><suffix>` for every layer, in order. */
  lemma {:induction false} NameListLines<V>(layers: seq<Layer<V>>, suffix: string)
    requires |suffix| > 0 && SepFree(suffix, {'\n'})
    requires forall k :: 0 <= k < |layers| ==> SepFree(layers[k].name, {'\n'})
    ensures |NameList(layers, suffix)| == 0 || NameList(layers, suffix)[|NameList(layers, suffix)| - 1] == '\n'
    ensures |Split(NameList(layers, suffix), {'\n'})| == |layers|
    ensures forall k :: 0 <= k < |layers| ==> Split(NameList(layers, suffix), {'\n'})[k] == layers[k].name + suffix
    decreases |layers|
  {
    var n := |layers|;
    if n > 0 {
      var init, x := layers[..n - 1], layers[n - 1].name + suffix;
      forall k | 0 <= k < |init| ensures SepFree(init[k].name, {'\n'}) {
        assert init[k] == layers[k];
      }
      NameListLines(init, suffix);
      assert SepFree(x, {'\n'});
      AppendAssoc(NameList(init, suffix), layers[n - 1].name, suffix);
      assert NameList(layers, suffix) == NameList(init, suffix) + x + "\n";
      LineStep(NameList(init, suffix), x);
      forall k | 0 <= k < n ensures Split(NameList(layers, suffix), {'\n'})[k] == layers[k].name + suffix {
        if k < n - 1 {
          assert layers[k] == init[k];
        }
      }
    }
  }

  /** Read line by line, the weights file of a rank-2 weight lists its chunk files' names. */
  lemma {:induction false} IndexLinesSplit(fs: seq<ChunkFile>)
    requires forall k :: 0 <= k < |fs| ==> |fs[k].name| > 0 && SepFree(fs[k].name, {'\n'})
    ensures |IndexLines(fs)| == 0 || IndexLines(fs)[|IndexLines(fs)| - 1] == '\n'
    ensures |Split(IndexLines(fs), {'\n'})| == |fs|
    ensures forall k :: 0 <= k < |fs| ==> Split(IndexLines(fs), {'\n'})[k] == fs[k].name
    decreases |fs|
  {
    var n := |fs|;
    if n > 0 {
      var init := fs[..n - 1];
      forall k | 0 <= k < |init| ensures |init[k].name| > 0 && SepFree(init[k].name, {'\n'}) {
        assert init[k] == fs[k];
      }
      IndexLinesSplit(init);
      LineStep(IndexLines(init), fs[n - 1].name);
      forall k | 0 <= k < n ensures Split(IndexLines(fs), {'\n'})[k] == fs[k].name {
        if k < n - 1 {
          assert fs[k] == init[k];
        }
      }
    }
  }
}
