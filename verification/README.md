# similarity_maps: the Caffe export and file helpers of compare.py, in Dafny

`compare.py` of similarity_maps compares a Caffe network with a C++/Vivado reimplementation of
it. This project models the text-producing core of that module:

- `write_caffe_files` dumps a network to text files:
  - every activation blob as a plain table (`blobs.dfy`);
  - every layer's weights as C initializer text, in either the nested `3d` form or the
    per-(kernel, channel) `2d` form (`initializer.dfy`);
  - rank-2 weights in files of at most 1024 rows, each row broken after every eighth value
    (`chunks.dfy`);
  - the biases;
  - the three lists of file names;
  - the whole run and its exceptions (`export.dfy`).
- `convert_to_2d` lays the numbers of any such file out again as a table of `numCols` columns
  (`reflow.dfy`).
- `auto_compare` pairs the entries of two `filenames.txt` lists, and names the worksheets each
  pair is compared on (`batch.dfy`).

## How the model is built

**Numbers.** Every number is written with `"{:.8E}".format(Decimal(str(v)))`. The model takes
that formatter as a parameter `fmt: V -> string`. The properties that read text back only assume
what the formatter guarantees: a formatted number is non-empty and holds no whitespace, brace,
comma, semicolon or bracket (`Tensors.FmtOk`).

**Arrays.** A numpy array is a `Tensors.Tensor`:
- rank 2 (`Rank2`);
- rank 4 (`Rank4`);
- any other rank (`OtherRank`, which the source writes as an empty file).

Each tensor carries its shape, and `Valid()` says the array is rectangular, as numpy arrays are.

**Exceptions.** The source raises `IndexError` on a missing `[0]` element. The model returns
`Results.Err`:
- the first value of an empty row;
- `W[0]` of a rank-2 blob without rows;
- `B[0]` of an empty bias.

`ZeroDivisionError` (`i % 0`) and `AssertionError` (lists of different length) are modelled
the same way.

**Two layers of definitions.**
- Reference functions say what a text is: brace lists joined by separators, lines, tables.
- Methods follow the loops of compare.py step by step, including:
  - the trailing separators and the `outstring[:-2]` / `[:-3]` trims (`Text.DropLast` is
    Python's `s[:-k]`);
  - the counter of the eight-values-per-line rule;
  - the `curr` / `curr_end` window loop.

  The methods are proved to produce the reference text.
- The `*_props.dfy` files prove what the texts mean:
  - reading a file back at its punctuation gives the formatted elements in row-major order;
  - braces balance;
  - line counts;
  - window partitions;
  - names are unique;
  - which inputs raise.

## Model

| member | source | states |
|---|---|---|
| Blobs.RenderBlobLine | compare.py:181-186 | the line of one innermost row: two spaces, then every value followed by two spaces, then a line break |
| Blobs.RenderBlob4 | compare.py:175-186 | a rank-4 blob is written one line per innermost row, images outer, channels next, rows inner |
| Blobs.RenderBlob2 | compare.py:188-197 | a rank-2 blob is written one line per column of `W[0]`, the line holding that column top to bottom; a blob without rows raises `IndexError` |
| Blobs.RenderBlob | compare.py:172-197 | the file content of one blob, chosen by rank; any rank other than 2 or 4 leaves the file empty |
| BlobsProps.BlobTextWords | compare.py:178-186 | a blob text split at whitespace gives the formatted values of its rows, row after row |
| BlobsProps.BlobTextLines | compare.py:185-186 | a blob text holds exactly one line break per row |
| BlobsProps.Blob4 | compare.py:175-186 | a rank-4 blob of shape n x c x h x w reads back as all its elements in row-major order, on n*c*h lines |
| BlobsProps.Blob2 | compare.py:188-197 | a rank-2 blob with rows gives `cols` lines, and line `i` reads back as column `i` |
| BlobsProps.Blob2NoRows | compare.py:191 | a rank-2 blob without rows raises `IndexError` at `W[0]` |
| BlobsProps.TransposeTwice | compare.py:191-194 | writing column by column is a transpose: doing it twice gives the matrix back |
| BlobsProps.ManifestNamesOtherFile | compare.py:165-171 | the name `blob_filenames.txt` lists for a blob (`<blob>_blob.txt`) is never the name of the file the blob is written to (`<blob>.txt`); it is the file a blob named `<blob>_blob` would be written to |
| Initializer.RenderValues | compare.py:238-241 | the innermost loop writes the row's values separated by `, ` |
| Initializer.RenderWeights3d | compare.py:232-247 | the `3d` text: with blocks of rows, every block as a brace list of its rows, blocks separated by a blank line, all in one brace pair closed by `;`; with no block, `};`; with blocks of no rows, what the trims leave (`},\n` repeated, then `}};`) |
| Initializer.Partial3dMeaning | compare.py:232-244 | the text the `3d` loops hold after any number of blocks: the finished blocks between `{` and `,\n\n` when every block holds a row, the repeated `},\n` when none does |
| Initializer.RenderWeights2d | compare.py:294-308 | the `2d` text: for every (kernel, channel), the header `kernel i+1/N channel j+1/M`, then the block as an initializer of its own closed by `};` and a blank line |
| Initializer.RenderBias | compare.py:357-363 | the bias text `{ v0,\n v1, ... };` |
| InitializerProps.Weights3dWords | compare.py:232-247 | the `3d` text split at its punctuation gives every element, formatted, in row-major order, and nothing else |
| InitializerProps.Weights3dBalanced | compare.py:232-247 | every brace of the `3d` text is closed, in order |
| InitializerProps.DegenerateUnbalanced | compare.py:243-246 | the text written for a weight with no block, or with blocks of no rows, closes braces it never opened |
| InitializerProps.Weights3dBlockCount | compare.py:233-235 | a weight of shape n x d1 x ... has n*d1 blocks in its `3d` text |
| InitializerProps.Weights3dBlockAt | compare.py:233-244 | block (i, j) is block number i*d1+j of the `3d` text: kernels outer, channels inner |
| InitializerProps.Weights2dSectionAt | compare.py:294-308 | the `2d` text has n*d1 sections; section i*d1+j is the header for (i+1, j+1) and block (i, j) |
| InitializerProps.Block2dIs3d | compare.py:298-307 | a `2d` block with rows is the `3d` block of the same channel, followed by `;` and a blank line |
| InitializerProps.BiasWords | compare.py:357-363 | the bias text split at its punctuation gives the formatted bias values, in order |
| InitializerProps.BiasBalanced | compare.py:357-363 | the bias text's braces balance |
| ChunkWriter.RenderGrouped | compare.py:264-273 | the value loop of a rank-2 row, with its counter, writes `, ` before each later value, plus a line break after every eighth value |
| ChunkWriter.RenderChunk | compare.py:261-276 | one file: its rows as a brace list closed by `};` and a blank line; raises `IndexError` exactly when one of its rows is empty |
| ChunkWriter.WriteChunks | compare.py:250-282 | the window loop writes exactly the files of `Chunks`, and lists their names one per line; it raises `IndexError` exactly when some row is empty |
| ChunkWriterProps.Windows1024 | compare.py:251-256 | file k holds rows 1024k up to min(1024k+1024, n), and there are ceil(n/1024) files |
| ChunkWriterProps.WindowsPartition | compare.py:253-282 | the windows are non-empty, consecutive, 1024 rows each except the last, and cover rows 0..n-1 exactly |
| ChunkWriterProps.ChunksFromWindows | compare.py:259-260 | file k is named `<layer>_weights_(<s>-<e>).txt` after its window (s, e) and holds exactly those rows |
| ChunkWriterProps.ChunkNameInjective | compare.py:259 | equal chunk file names mean equal row ranges |
| ChunkWriterProps.ChunkNamesDistinct | compare.py:259-260 | no two files of one weight share a name, so none overwrites another |
| ChunkWriterProps.GroupedLines8 | compare.py:264-273 | a row's text is its values in lines, joined by `, ` and a line break; a row of n > 0 values has (n-1)/8+1 lines and line k holds values 8k up to min(8k+8, n), so every line holds eight values except the last, which holds one to eight |
| ChunkWriterProps.Groups8At | compare.py:264-273 | the lines of n > 0 formatted values: (n-1)/8+1 of them, line k joining values 8k up to min(8k+8, n) |
| ChunkWriterProps.GroupedBreaks | compare.py:266-273 | a row of n > 0 values has (n-1)/8 line breaks |
| ChunkWriterProps.ChunksWords | compare.py:250-282 | the files together, split at their punctuation, give every element of the weight exactly once, row after row |
| ChunkWriterProps.ChunkBalanced | compare.py:261-276 | every file's braces balance |
| Export.WriteBlobs | compare.py:157-203 | the blob loop writes exactly the files of `BlobFiles`; on success `blob_filenames.txt` holds every line of `BlobManifest`, and when blob k raises it holds the lines of blobs 0..k, the last one a blob that raises |
| Export.WriteWeights | compare.py:223-347 | the weights of one layer: nothing for an unknown `dimensions`; the `3d` or `2d` text for rank 4; the chunk files and then their list for rank 2; an empty file for any other rank |
| Export.WriteLayer | compare.py:211-363 | one layer: its weights, then its bias file |
| Export.WriteParams | compare.py:207-370 | the layer loop writes exactly the files of `ParamFiles`; on success it also writes both name lists |
| Export.WriteCaffeFiles | compare.py:153-371 | the whole run: blob files, `blob_filenames.txt`, parameter files, `weights_filenames.txt`, `bias_filenames.txt` |
| ExportProps.BlobPhase | compare.py:162-197 | the blob loop raises exactly when some rank-2 blob has no rows, always `IndexError`; otherwise blob k goes to `<dir><blob>.txt` with its text |
| ExportProps.WeightsPhase | compare.py:223-347 | a layer's weights raise exactly when, under a known `dimensions`, a rank-4 weight has empty innermost rows or a rank-2 weight has an empty row; an unknown `dimensions` writes nothing; otherwise the last file is `<layer>_weights.txt` |
| ExportProps.LayerPhase | compare.py:211-363 | a layer raises exactly when its weights do or its bias is empty; otherwise its last file is the bias file, and with an unknown `dimensions` it is the only one |
| ExportProps.ParamPhase | compare.py:211-363 | the layer loop raises exactly when some layer does, always `IndexError` |
| ExportProps.UnknownDimsOnlyBias | compare.py:345-363 | with an unknown `dimensions`, the layer loop writes one bias file per layer, in order, and nothing else |
| ExportProps.ExportOutcome | compare.py:153-371 | the run raises exactly when a blob or a layer does; otherwise `blob_filenames.txt` follows the blob files, and the two lists close the run, whatever `dimensions` is |
| ExportProps.ManifestLines | compare.py:162-165 | read line by line, `blob_filenames.txt` lists `<blob>_blob.txt` for every blob, in order |
| ExportProps.NameListLines | compare.py:211-215 | read line by line, the weights and bias lists name `<layer>_weights.txt` / `<layer>_bias.txt` for every layer, in order |
| ExportProps.IndexLinesSplit | compare.py:259-279 | read line by line, the weights file of a rank-2 weight lists its chunk files' names, in order |
| Reflow.ConvertTo2d | compare.py:386-402 | the write loop produces `Convert`: every token in a left-justified field of 20, with a line break after token i whenever Python's `i % numCols == 0`; `ZeroDivisionError` for `numCols == 0` if there is a token |
| ReflowProps.TokensShape | compare.py:389-393 | the numbers read from a file are non-empty and hold no whitespace, bracket or comma |
| ReflowProps.PyModZero | compare.py:398 | Python's `i % numCols == 0` holds exactly when abs(numCols) divides i, for either sign of numCols |
| ReflowProps.TableBreaks | compare.py:396-399 | the table has len(nums) // abs(numCols) line breaks |
| ReflowProps.TableReadBack | compare.py:393-399 | splitting the table at whitespace gives the numbers back, when each is shorter than its field |
| ReflowProps.LongTokenJoinsNext | compare.py:397 | a token of 20 or more characters gets no padding, so the next token on its line is written right against it |
| ReflowProps.ConvertOutcome | compare.py:396-399 | a file without numbers gives an empty file; `numCols == 0` raises `ZeroDivisionError`; nothing else raises |
| ReflowProps.ConvertIdempotent | compare.py:386-402 | converting a converted file again gives the same file and the same numbers, when every number is shorter than its field |
| Batch.AutoCompare | compare.py:111-132 | the loop makes exactly the comparisons of `Pairings`, in order, or fails the length assertion |
| BatchProps.PairingsOutcome | compare.py:117-130 | the assertion fails exactly when the lists differ in length; otherwise comparison i pairs the i-th entries, each with its directory prepended and its line break removed, on sheets `caffe_` and `vivado_` followed by the file name without its last four characters, and on sheet `error i` |
| BatchProps.FileNameOfLine | compare.py:126-127 | a name written on a line of its own reads back as that name, with or without the line break |
| BatchProps.SheetNameExtension | compare.py:132 | a sheet name is the prefix and the file name without its last four characters; a name of four characters or fewer leaves only the prefix |
| BatchProps.ErrorSheetsDistinct | compare.py:124-132 | every comparison gets an error sheet of its own |
| BatchProps.CaffeSheetsCollide | compare.py:132 | the `caffe_` sheets are not unique: the lines `a.txt` and `a.csv` both ask for the sheet `caffe_a` |

## Left out

- The comparison itself (`compare`, the similarity metric) and the Excel workbook: `xlsxwriter` calls are foreign code. `auto_compare` is modelled up to the arguments it passes to `compare`.
- `mergeFiles` (compare.py:416-424): plain file concatenation, outside the modelled core.
- The number formatter `"{:.8E}".format(Decimal(str(v)))`: Decimal arithmetic and float printing are foreign code. It is the parameter `fmt`, and the properties assume only `FmtOk` about it.
- File I/O, `print`, `numpy.loadtxt` and the Caffe `net` object:
  - a run is modelled as the list of files it leaves behind, each file a path and a text;
  - the network is given as its blobs and layers, in the order Caffe lists them;
  - `convert_to_2d` takes the old file's content and returns the new file's content;
  - `auto_compare` takes the two lists of lines `readlines` returns.
- Files left half-written when an exception is raised: a run that raises is modelled as the exception alone. Examples are the `2d` header `kernel 1/N channel 1/M` written before a rank-4 weight with empty innermost rows raises, the first field `convert_to_2d` writes before `i % 0` raises, and the lists opened before the loop.
- Export.WriteWeights: a rank-4 weight with empty innermost rows is rejected before its loop starts, from its shape. Then every innermost row is empty, so the first access `W[0][0][0][0]` already raises. In the `3d` form the text is only built in memory, and the `IndexError` comes before it is written (compare.py:238, 247), so `<layer>_weights.txt` is left empty. In the `2d` form the source has written exactly one header, `kernel 1/N channel 1/M` (compare.py:296-297), and no rows. The model records only the exception.
- Layers with weights but no bias blob (`net.params[p][1]` missing): the model gives every layer a bias vector, possibly empty.
- Export.WriteCaffeFiles: the source never closes the chunk files of a rank-2 weight (`f_curr`). The model treats them as written in full.
- Reflow.ConvertTo2d: `'{:20}'.format(str)` left-justifies strings, so each field is the number followed by spaces; the model follows the code.
- BatchProps.ErrorSheetsDistinct: only the `error i` sheets are unique. compare.py:132 builds the `caffe_` and `vivado_` names from the file name alone, without its last four characters. Two files that differ only in their extension, or any two names of four characters or fewer, ask for the same sheet (`BatchProps.CaffeSheetsCollide`, `BatchProps.SheetNameExtension`). The model follows the code and does not model what the workbook does with a repeated sheet name.
- Export.ExportFiles: the file list may name one path twice. A blob named `blob_filenames` is written to `<blobs>/blob_filenames.txt` (compare.py:171), the path of the manifest, which is still open from compare.py:157. The list then holds two `File`s with that path, and the model does not say which content the disk keeps.
