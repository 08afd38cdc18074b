# Meteorological grid tensor builder — Dafny model

This project models the extraction and assembly core of `tensor.py`. The
script reads two archives of gridded netCDF files. The `.NC` archive is read
by `process_NC_file` and the `.nc` archive by `process_nc_file`. From each
file it takes seven named variables and masks their fill values with NaN.
It crops every variable to the top-left 228 x 296 window and stacks the
files of one archive into a tensor of shape (N, 228, 296, 7). The two batch
tensors are then concatenated along the file axis.

Modules:

- `NdArrays` (`ndarray.dfy`): NumPy-style N-dimensional arrays. An array is
  a shape plus its cells in row-major order. Cells are `Val(v) | NaN`; no
  IEEE arithmetic is involved. The module gives multi-index access
  (`Offset`, `Elem`), `a[0]` (`Index0`), the `np.where` fill mask (`Mask`),
  `np.nan * np.ones(shape)` (`Full`) and the `[:rows, :cols]` crop (`Window`).
- `Records` (`records.dfy`): a file is either `Corrupt` (`nc.Dataset` cannot
  open it) or a map from variable names to (array, optional `_FillValue`).
  The two readers are one builder, `BuildRecord`, with a name table per
  `Schema` (`UpperNC` for `.NC`, `LowerNc` for `.nc`). Each reader keeps its
  own per-variable step, `ExtractUpper` or `ExtractLower`, and its own error
  rules. The builder's `for var` loop is specified by the function `Build`.
- `Batch` (`batch.dfy`): the collect loop that keeps the files whose reader
  did not raise (`Collect`, specified by `Survivors`). Then the tensor fill:
  an `array4` allocated without initial contents, like `np.empty`, and
  written one `(i, j)` slice at a time (`Assemble`, `WriteRecord`,
  `WriteSlice`). Then `np.concatenate` (`Concatenate`) and the composition
  done by `main` (`Run`).

The code behaves as follows where a reader might expect otherwise; the
model follows the code:

- In the `.NC` path, a missing variable, a missing `_FillValue` or a
  variable with too few axes raises. The whole file is then dropped. It is
  not kept with an all-NaN variable.
- In the `.nc` path, a rank-3 variable whose leading axis is empty makes
  `values[0, :, :]` raise. That drops the whole file.
- In the `.nc` path, a variable of another rank is stored as the bare
  `np.nan`. When a `_FillValue` is declared, masking turns it into a 0-d
  array. Either way it becomes an all-NaN slice in the tensor. No error is
  raised.
- The code has no crop bound check. A 2-D array smaller than the window
  makes the slice assignment raise outside the `try`, which ends the run.
  The model states this as the precondition `Fits`, through `Admissible` on
  the input files. `Fits` also excludes a `.NC` variable of rank above 4,
  whose `[0, 0, :, :]` is not 2-D. Such a slice raises in the assignment
  unless its extra leading axes have size 1, in which case NumPy
  broadcasting drops them; that broadcasting case is left out with the
  others below.
- `np.concatenate` raises unless the non-file extents agree. `Concatenate`
  requires that they agree.

## Model

| member | source | states |
|---|---|---|
| `NdArrays.Offset` | tensor.py:18 | the row-major position of any in-bounds multi-index lies inside the array's cells |
| `NdArrays.Index0` | tensor.py:77 | `a[0]` has the shape of `a` without its leading axis |
| `NdArrays.Index0Elem` | tensor.py:77 | `a[0][idx]` is the cell `a[0, idx...]`, for every in-bounds `idx` |
| `NdArrays.Mask` | tensor.py:20 | `np.where(a == fill, np.nan, a)`, here and at line 84, keeps the shape of `a`; `MaskElem` gives its cells |
| `NdArrays.MaskElem` | tensor.py:20 | masking keeps the shape; a cell is NaN after masking exactly when it equalled the fill value or was NaN; every other cell is unchanged; no cell equals the fill value afterwards |
| `NdArrays.Full` | tensor.py:87 | `np.nan * np.ones(shape)` has the requested shape |
| `NdArrays.FullElem` | tensor.py:87 | every cell of that array is NaN |
| `NdArrays.AtElem` | tensor.py:124 | 2-D access `a[r, c]` is the multi-index access with `[r, c]` |
| `NdArrays.Window` | tensor.py:50-56 | `a[:rows, :cols]` is a rows x cols grid whose cell `(r, c)` is `a[r, c]`: a top-left crop, no shift or padding |
| `NdArrays.Constant` | tensor.py:126 | `np.nan * np.ones((228, 296))` is a 228 x 296 grid of NaN |
| `Records.Names` | tensor.py:67 | each reader's name table (this line, line 13 for `.NC`, line 121 for the fill loop) lists seven variables, in tensor order |
| `Records.ExtractUpper` | tensor.py:17-21 | one `.NC` variable fails exactly when it is absent, has fewer than four axes, has an empty first or second axis, or has no `_FillValue`; otherwise its value is an array shaped like the trailing axes |
| `Records.UpperCell` | tensor.py:18-20 | each cell of an extracted `.NC` variable is the stored cell at `[0, 0, idx]`, masked with the fill value |
| `Records.ExtractLower` | tensor.py:70-87 | one `.nc` variable fails only when it is rank 3 with an empty leading axis; an absent variable gives the all-NaN 231 x 297 array, unmasked |
| `Records.LowerCell` | tensor.py:72-84 | rank 2 is kept and rank 3 gives its first slice, a 2-D array whose cells are the stored cells, masked only when `_FillValue` is declared |
| `Records.LowerOtherRank` | tensor.py:78-84 | any other rank is kept without error as something that is not a 2-D array: the bare `np.nan` without a fill value, a 0-d array with one |
| `Records.MaskValue` | tensor.py:79-84 | masking what `process_nc_file` stored always yields an array: an array is masked cell by cell, and the bare `np.nan` becomes a 0-d array |
| `Records.Extract` | tensor.py:17-87 | one loop iteration fails, for `.NC`, exactly when `UpperFails` holds and, for `.nc`, exactly on a rank-3 variable with an empty leading axis |
| `Records.BuildNames` | tensor.py:17-87 | a loop over a name list that completes leaves a dict whose keys are exactly those names |
| `Records.Build` | tensor.py:6-89 | a file that `nc.Dataset` cannot open raises; `BuildOutcome` gives the rest of the outcome |
| `Records.ErrorPersists` | tensor.py:17-21 | once an iteration raises, the outcome of the whole loop is that error |
| `Records.BuildNamesOk` | tensor.py:17-21 | the loop over a name list completes exactly when every name in it extracts |
| `Records.BuildNamesRecord` | tensor.py:70-87 | a completed loop yields a dict whose keys are exactly the names, each mapped to its extracted value |
| `Records.BuildNamesErr` | tensor.py:17-19 | a failed loop raised the error of the first name that fails, and every earlier name extracted |
| `Records.BuildOutcome` | tensor.py:6-24 | a reader returns a record exactly when the file opens and all seven names extract; the record holds exactly those names with their values; otherwise it raised the first failing name's error |
| `Records.RecordValue` | tensor.py:21 | the record's entry for each of the reader's names is that name's extracted value |
| `Records.UpperDropped` | tensor.py:10-21 | `process_NC_file` raises exactly when the file does not open or some name is absent, has fewer than four axes, has an empty first or second axis or lacks `_FillValue` |
| `Records.LowerDropped` | tensor.py:64-89 | `process_nc_file` raises only for an unopenable file or a rank-3 variable with an empty leading axis; absent names are kept as the all-NaN 231 x 297 array |
| `Records.BuildRecord` | tensor.py:60-89 | the reader loop (either schema) returns exactly the record or error that `Build` specifies |
| `Batch.SurvivorsKept` | tensor.py:30-41 | slice `i` of the batch is the record of the `i`-th file whose reader did not raise, with positions strictly increasing; a file is kept exactly when its reader succeeds |
| `Batch.Survivors` | tensor.py:30-111 | the `all_data` list; it has no contract of its own, and `SurvivorsKept` characterises it: the records of exactly the files whose reader did not raise, in discovery order |
| `Batch.SurvivorsAppend` | tensor.py:95-111 | collecting two lists in a row equals collecting their concatenation: dropping files never reorders the survivors |
| `Batch.SurvivorsFit` | tensor.py:49-56 | when every input file is admissible, every surviving record can be written into the tensor |
| `Batch.Collect` | tensor.py:30-41 | the `try`/`append` loop returns exactly the surviving records in discovery order |
| `Batch.UpperFits` | tensor.py:45-56 | a `.NC` record can be written exactly when every variable is 4-D with at least 228 x 296 in its last two axes |
| `Batch.Slice` | tensor.py:49-126 | what is written into `tensor[i, :, :, j]` is always a 228 x 296 grid: the top-left window of a 2-D value, or, in the `.nc` path, all NaN for any other value (`UpperTensorCell`, `LowerTensorCell` and `LowerNaNSlice` give its cells) |
| `Batch.UpperTensorCell` | tensor.py:18-56 | the tensor cell `(r, c)` of `.NC` variable `j` is the stored cell `[0, 0, r, c]`, NaN exactly where it equalled the fill value, and never the fill value |
| `Batch.LowerTensorCell` | tensor.py:72-124 | for a `.nc` variable of rank 2 or 3 the tensor cell `(r, c)` is the stored cell `[r, c]` or `[0, r, c]`, masked when `_FillValue` is declared |
| `Batch.LowerNaNSlice` | tensor.py:85-126 | an absent `.nc` variable, or one of another rank, yields NaN in every cell of its slice |
| `Batch.WriteSlice` | tensor.py:124 | `tensor[i, :, :, j] = window` sets exactly that slice and leaves every other cell unchanged |
| `Batch.WriteRecord` | tensor.py:121-126 | the inner loop writes all seven slices of file `i` and touches no other file's cells |
| `Batch.Assemble` | tensor.py:114-126 | the fresh (N, 228, 296, 7) tensor has every cell written: cell `(i, r, c, j)` is cell `(r, c)` of variable `j`'s window of record `i` |
| `Batch.ProcessAll` | tensor.py:91-128 | a batch tensor has one slice per surviving file, in discovery order, each holding that file's windows |
| `Batch.Concatenate` | tensor.py:141 | the result has `N1 + N2` file slices; the first `N1` equal the first tensor, the next `N2` the second |
| `Batch.Run` | tensor.py:130-141 | the combined tensor has shape (N1 + N2, 228, 296, 7); the `.NC` survivors' slices come first, then the `.nc` survivors' slices |

## Left out

- netCDF decoding (`nc.Dataset`, `dataset.variables`, attribute lookup,
  masked-array auto-masking, `dataset.close()`): a library call. A file is
  given as `Corrupt` or as a map from names to (array, optional fill value).
- Directory discovery (`os.walk`, `os.listdir`, `os.path.isdir`, the
  `.NC`/`.nc` suffix filters) and the two root-directory constants of
  `main`: filesystem I/O. The ordered file lists are inputs.
- `np.save` and every `print`: output only.
- IEEE floating point: cells are `Val(int) | NaN`, so NaN never equals a
  fill value. A NaN fill value is not modelled.
- NumPy broadcasting in slice assignment, such as a 1 x 296 source
  broadcast into the window, or a `.NC` variable of shape (1, 1, 1, 228, 296)
  whose size-1 leading axis is dropped in the assignment: library detail.
  The model requires 2-D sources at least 228 x 296 instead (`Fits`).
- netCDF's own slicing of unlimited dimensions: `[0, 0, :, :]` and `[0]` are
  modelled with NumPy's semantics, where index 0 on an empty axis raises
  IndexError.
- Run-to-run idempotence: every operation is a deterministic function or
  method of its inputs, so it holds without a separate statement.
