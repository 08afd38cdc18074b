/** Batch assembly: the collect loops and tensor-filling loops of
    `process_all_NC_files` and `process_all_nc_files`, and the concatenation
    of the two batch tensors in `main`. The file lists come from directory
    discovery, which is outside this model. */
module Batch {
  import opened NdArrays
  import opened Records

  /** The canonical window and variable count of every tensor slice. */
  const Rows: nat := 228
  const Cols: nat := 296
  const NumVars: nat := 7

  /** The records of the files whose reader did not raise, in discovery order. */
  function Survivors(schema: Schema, files: seq<File>): (all: seq<Record>)
    decreases |files|
  {
    if files == [] then []
    else
      var init := Survivors(schema, files[..|files| - 1]);
      match Build(schema, files[|files| - 1])
      case Ok(rec) => init + [rec]
      case Err(_) => init
  }

  /** The positions, in the discovered list, of the files whose reader did not raise. */
  function Kept(schema: Schema, files: seq<File>): seq<nat>
    decreases |files|
  {
    if files == [] then []
    else
      var init := Kept(schema, files[..|files| - 1]);
      if Build(schema, files[|files| - 1]).Ok? then init + [|files| - 1] else init
  }

  /** Slice `i` of the batch is the record of the `i`-th surviving file: the
      survivors are exactly the files whose reader did not raise, taken in
      increasing discovery position, so dropping a file shifts no survivor
      out of order. */
  lemma {:induction false} SurvivorsKept(schema: Schema, files: seq<File>)
    ensures |Survivors(schema, files)| == |Kept(schema, files)|
    ensures forall i :: 0 <= i < |Kept(schema, files)| ==>
              Kept(schema, files)[i] < |files|
              && Build(schema, files[Kept(schema, files)[i]]) == Ok(Survivors(schema, files)[i])
    ensures forall i, j :: 0 <= i < j < |Kept(schema, files)| ==> Kept(schema, files)[i] < Kept(schema, files)[j]
    ensures forall k :: 0 <= k < |files| ==> (Build(schema, files[k]).Ok? <==> k in Kept(schema, files))
    decreases |files|
  {
    if files != [] {
      var init := files[..|files| - 1];
      SurvivorsKept(schema, init);
      forall k | 0 <= k < |init|
        ensures files[k] == init[k]
      {
      }
    }
  }

  /** Collecting two lists one after the other is collecting their concatenation. */
  lemma {:induction false} SurvivorsAppend(schema: Schema, a: seq<File>, b: seq<File>)
    ensures Survivors(schema, a + b) == Survivors(schema, a) + Survivors(schema, b)
    decreases |b|
  {
    if b == [] {
      assert a + b == a;
    } else {
      var ab := a + b;
      assert ab[..|ab| - 1] == a + b[..|b| - 1];
      assert ab[|ab| - 1] == b[|b| - 1];
      SurvivorsAppend(schema, a, b[..|b| - 1]);
    }
  }

  /** When every discovered file is admissible, every surviving record fits. */
  lemma SurvivorsFit(schema: Schema, files: seq<File>)
    requires forall k :: 0 <= k < |files| ==> Admissible(schema, files[k])
    ensures forall i :: 0 <= i < |Survivors(schema, files)| ==> Fits(schema, Survivors(schema, files)[i])
  {
    SurvivorsKept(schema, files);
    forall i | 0 <= i < |Survivors(schema, files)|
      ensures Fits(schema, Survivors(schema, files)[i])
    {
      assert Admissible(schema, files[Kept(schema, files)[i]]);
    }
  }

  /** The collect loop: call the reader on each file in discovery order and
      append its dict to `all_data` unless it raised. */
  method Collect(schema: Schema, files: seq<File>) returns (all: seq<Record>)
    ensures all == Survivors(schema, files)
  {
    all := [];
    for k := 0 to |files|
      invariant all == Survivors(schema, files[..k])
    {
      assert files[..k + 1][..k] == files[..k];
      var r := BuildRecord(schema, files[k]);
      if r.Ok? {
        all := all + [r.value];
      }
    }
    assert files[..|files|] == files;
  }

  predicate Is2D(v: Value)
  {
    v.Arr? && |v.a.shape| == 2
  }

  /** A 2-D array at least as large as the window. */
  predicate Covers(v: Value)
  {
    Is2D(v) && v.a.shape[0] >= Rows && v.a.shape[1] >= Cols
  }

  /** What the tensor-filling loop needs of a record so that no slice
      assignment raises: every name present; in the `.NC` path every value a
      2-D array covering the window; in the `.nc` path every 2-D value covering
      it (any other value becomes a NaN slice). */
  predicate Fits(schema: Schema, rec: Record)
  {
    forall n :: n in Names(schema) ==>
      n in rec &&
      match schema
      case UpperNC => Covers(rec[n])
      case LowerNc => Is2D(rec[n]) ==> Covers(rec[n])
  }

  /** A file whose record, if it has one, can be written into the tensor. */
  predicate Admissible(schema: Schema, f: File)
  {
    Build(schema, f).Ok? ==> Fits(schema, Build(schema, f).value)
  }

  /** What the tensor-filling loop writes into `tensor[i, :, :, j]` for a
      record: the top-left window of variable `j`, or, in the `.nc` path, an
      all-NaN window when that variable is not a 2-D array. */
  function Slice(schema: Schema, rec: Record, j: nat): (g: Grid)
    requires Fits(schema, rec) && j < NumVars
    ensures IsGrid(g, Rows, Cols)
  {
    var v := rec[Names(schema)[j]];
    match schema
    case UpperNC => Window(v.a, Rows, Cols)
    case LowerNc => if Is2D(v) then Window(v.a, Rows, Cols) else Constant(Rows, Cols, NaN)
  }

  /** The `.NC` fit condition on the stored file: a record fits exactly when
      every variable is 4-D with at least 228 rows and 296 columns in its last
      two axes. */
  lemma UpperFits(f: File)
    requires Build(UpperNC, f).Ok?
    ensures Fits(UpperNC, Build(UpperNC, f).value) <==>
              forall n :: n in Names(UpperNC) ==>
                n in f.vars && |f.vars[n].data.shape| == 4 && f.vars[n].data.shape[2] >= Rows && f.vars[n].data.shape[3] >= Cols
  {
    BuildOutcome(UpperNC, f);
  }

  /** A tensor cell from a `.NC` file: the stored cell at `[0, 0, r, c]` of
      variable `j`, replaced by NaN exactly when it equals the fill value; so
      the fill value itself never reaches the tensor. */
  lemma UpperTensorCell(f: File, j: nat, r: nat, c: nat)
    requires Build(UpperNC, f).Ok? && Fits(UpperNC, Build(UpperNC, f).value)
    requires j < NumVars && r < Rows && c < Cols
    ensures var n := Names(UpperNC)[j];
            n in f.vars && f.vars[n].fill.Some? && InBounds(f.vars[n].data.shape, [0, 0, r, c])
            && Slice(UpperNC, Build(UpperNC, f).value, j)[r][c]
               == MaskCell(Elem(f.vars[n].data, [0, 0, r, c]), f.vars[n].fill.value)
            && Slice(UpperNC, Build(UpperNC, f).value, j)[r][c] != Val(f.vars[n].fill.value)
  {
    var rec := Build(UpperNC, f).value;
    var n := Names(UpperNC)[j];
    RecordValue(UpperNC, f, n);
    var a := rec[n].a;
    AtElem(a, r, c);
    UpperCell(f.vars, n, [r, c]);
    assert [0, 0] + [r, c] == [0, 0, r, c];
  }

  /** A tensor cell from a `.nc` file for a variable stored with rank 2 or 3:
      the (masked, when `_FillValue` is declared) stored cell at `[r, c]`, or
      `[0, r, c]` for rank 3; a declared fill value never reaches the tensor. */
  lemma LowerTensorCell(f: File, j: nat, r: nat, c: nat)
    requires Build(LowerNc, f).Ok? && Fits(LowerNc, Build(LowerNc, f).value)
    requires j < NumVars && r < Rows && c < Cols
    requires var n := Names(LowerNc)[j];
             n in f.vars && (|f.vars[n].data.shape| == 2 || |f.vars[n].data.shape| == 3)
    ensures var n := Names(LowerNc)[j];
            var lead := if |f.vars[n].data.shape| == 3 then [0] else [];
            InBounds(f.vars[n].data.shape, lead + [r, c])
            && Slice(LowerNc, Build(LowerNc, f).value, j)[r][c]
               == MaskIfDeclared(Elem(f.vars[n].data, lead + [r, c]), f.vars[n].fill)
            && (f.vars[n].fill.Some? ==> Slice(LowerNc, Build(LowerNc, f).value, j)[r][c] != Val(f.vars[n].fill.value))
  {
    var rec := Build(LowerNc, f).value;
    var n := Names(LowerNc)[j];
    RecordValue(LowerNc, f, n);
    var stored := f.vars[n].data;
    assert |stored.shape| == 3 ==> stored.shape[0] > 0;
    LowerCell(f.vars, n, [0, 0]);
    var a := rec[n].a;
    assert Is2D(rec[n]);
    AtElem(a, r, c);
    LowerCell(f.vars, n, [r, c]);
  }

  /** In a `.nc` file, a variable that is absent, or stored with a rank other
      than 2 and 3, gives an all-NaN slice; the file itself is still kept. */
  lemma LowerNaNSlice(f: File, j: nat, r: nat, c: nat)
    requires Build(LowerNc, f).Ok? && Fits(LowerNc, Build(LowerNc, f).value)
    requires j < NumVars && r < Rows && c < Cols
    requires var n := Names(LowerNc)[j];
             n !in f.vars || (|f.vars[n].data.shape| != 2 && |f.vars[n].data.shape| != 3)
    ensures Slice(LowerNc, Build(LowerNc, f).value, j)[r][c] == NaN
  {
    var rec := Build(LowerNc, f).value;
    var n := Names(LowerNc)[j];
    RecordValue(LowerNc, f, n);
    if n !in f.vars {
      var a := Full([NativeRows, NativeCols], NaN);
      assert rec[n] == Arr(a);
      AtElem(a, r, c);
      FullElem([NativeRows, NativeCols], NaN, [r, c]);
    } else {
      LowerOtherRank(f.vars, n);
    }
  }

  /** `tensor[i, :, :, j] = window`: one slice assignment, which leaves every
      other slice as it was. */
  method WriteSlice(t: array4<Cell>, i: nat, j: nat, window: Grid)
    requires i < t.Length0 && j < t.Length3 && IsGrid(window, t.Length1, t.Length2)
    modifies t
    ensures forall r, c :: 0 <= r < t.Length1 && 0 <= c < t.Length2 ==> t[i, r, c, j] == window[r][c]
    ensures forall i', r, c, j' ::
              0 <= i' < t.Length0 && 0 <= r < t.Length1 && 0 <= c < t.Length2 && 0 <= j' < t.Length3 &&
              (i' != i || j' != j)
              ==> t[i', r, c, j'] == old(t[i', r, c, j'])
  {
    forall r, c | 0 <= r < t.Length1 && 0 <= c < t.Length2 {
      t[i, r, c, j] := window[r][c];
    }
  }

  /** The inner loop of the tensor-filling loop: write the slices of record
      `i` for every variable, leaving the other records' slices as they were. */
  method WriteRecord(t: array4<Cell>, i: nat, schema: Schema, rec: Record)
    requires i < t.Length0 && t.Length1 == Rows && t.Length2 == Cols && t.Length3 == NumVars
    requires Fits(schema, rec)
    modifies t
    ensures forall r, c, j :: 0 <= r < Rows && 0 <= c < Cols && 0 <= j < NumVars ==>
              t[i, r, c, j] == Slice(schema, rec, j)[r][c]
    ensures forall i', r, c, j ::
              0 <= i' < t.Length0 && i' != i && 0 <= r < Rows && 0 <= c < Cols && 0 <= j < NumVars ==>
              t[i', r, c, j] == old(t[i', r, c, j])
  {
    for j := 0 to NumVars
      invariant forall r, c, j' :: 0 <= r < Rows && 0 <= c < Cols && 0 <= j' < j ==>
                  t[i, r, c, j'] == Slice(schema, rec, j')[r][c]
      invariant forall i', r, c, j' ::
                  0 <= i' < t.Length0 && i' != i && 0 <= r < Rows && 0 <= c < Cols && 0 <= j' < NumVars ==>
                  t[i', r, c, j'] == old(t[i', r, c, j'])
    {
      var window := Slice(schema, rec, j);
      WriteSlice(t, i, j, window);
    }
  }

  /** The tensor-filling loop: preallocate an uninitialised
      (N, 228, 296, 7) tensor and write slice `(i, j)` for every record `i`
      and variable `j`. Every cell ends up written. */
  method Assemble(schema: Schema, records: seq<Record>) returns (t: array4<Cell>)
    requires forall i :: 0 <= i < |records| ==> Fits(schema, records[i])
    ensures fresh(t)
    ensures t.Length0 == |records| && t.Length1 == Rows && t.Length2 == Cols && t.Length3 == NumVars
    ensures forall i, r, c, j :: 0 <= i < |records| && 0 <= r < Rows && 0 <= c < Cols && 0 <= j < NumVars ==>
              t[i, r, c, j] == Slice(schema, records[i], j)[r][c]
  {
    t := new Cell[|records|, Rows, Cols, NumVars];
    for i := 0 to |records|
      invariant forall i', r, c, j :: 0 <= i' < i && 0 <= r < Rows && 0 <= c < Cols && 0 <= j < NumVars ==>
                  t[i', r, c, j] == Slice(schema, records[i'], j)[r][c]
    {
      WriteRecord(t, i, schema, records[i]);
    }
  }

  /** `process_all_NC_files` / `process_all_nc_files` after discovery:
      collect the surviving records, then build their tensor. */
  method ProcessAll(schema: Schema, files: seq<File>) returns (t: array4<Cell>)
    requires forall k :: 0 <= k < |files| ==> Admissible(schema, files[k])
    ensures forall i :: 0 <= i < |Survivors(schema, files)| ==> Fits(schema, Survivors(schema, files)[i])
    ensures fresh(t)
    ensures t.Length0 == |Survivors(schema, files)|
    ensures t.Length1 == Rows && t.Length2 == Cols && t.Length3 == NumVars
    ensures forall i, r, c, j :: 0 <= i < t.Length0 && 0 <= r < Rows && 0 <= c < Cols && 0 <= j < NumVars ==>
              t[i, r, c, j] == Slice(schema, Survivors(schema, files)[i], j)[r][c]
  {
    var all := Collect(schema, files);
    SurvivorsFit(schema, files);
    t := Assemble(schema, all);
  }

  /** `np.concatenate((a, b), axis=0)`: the files of `a` followed by those of
      `b`. NumPy raises, and `main` crashes, unless the other extents agree. */
  method Concatenate(a: array4<Cell>, b: array4<Cell>) returns (t: array4<Cell>)
    requires a.Length1 == b.Length1 && a.Length2 == b.Length2 && a.Length3 == b.Length3
    ensures fresh(t)
    ensures t.Length0 == a.Length0 + b.Length0
    ensures t.Length1 == a.Length1 && t.Length2 == a.Length2 && t.Length3 == a.Length3
    ensures forall i, r, c, j :: 0 <= i < a.Length0 && 0 <= r < a.Length1 && 0 <= c < a.Length2 && 0 <= j < a.Length3 ==>
              t[i, r, c, j] == a[i, r, c, j]
    ensures forall i, r, c, j :: 0 <= i < b.Length0 && 0 <= r < b.Length1 && 0 <= c < b.Length2 && 0 <= j < b.Length3 ==>
              t[a.Length0 + i, r, c, j] == b[i, r, c, j]
  {
    t := new Cell[a.Length0 + b.Length0, a.Length1, a.Length2, a.Length3];
    forall i, r, c, j | 0 <= i < t.Length0 && 0 <= r < t.Length1 && 0 <= c < t.Length2 && 0 <= j < t.Length3 {
      t[i, r, c, j] := if i < a.Length0 then a[i, r, c, j] else b[i - a.Length0, r, c, j];
    }
  }

  /** `main` after discovery and before saving: the `.NC` batch, then the
      `.nc` batch, concatenated along the file axis. */
  method Run(upperFiles: seq<File>, lowerFiles: seq<File>) returns (combined: array4<Cell>)
    requires forall k :: 0 <= k < |upperFiles| ==> Admissible(UpperNC, upperFiles[k])
    requires forall k :: 0 <= k < |lowerFiles| ==> Admissible(LowerNc, lowerFiles[k])
    ensures forall i :: 0 <= i < |Survivors(UpperNC, upperFiles)| ==> Fits(UpperNC, Survivors(UpperNC, upperFiles)[i])
    ensures forall i :: 0 <= i < |Survivors(LowerNc, lowerFiles)| ==> Fits(LowerNc, Survivors(LowerNc, lowerFiles)[i])
    ensures fresh(combined)
    ensures combined.Length0 == |Survivors(UpperNC, upperFiles)| + |Survivors(LowerNc, lowerFiles)|
    ensures combined.Length1 == Rows && combined.Length2 == Cols && combined.Length3 == NumVars
    ensures forall i, r, c, j :: 0 <= i < |Survivors(UpperNC, upperFiles)| && 0 <= r < Rows && 0 <= c < Cols && 0 <= j < NumVars ==>
              combined[i, r, c, j] == Slice(UpperNC, Survivors(UpperNC, upperFiles)[i], j)[r][c]
    ensures forall i, r, c, j :: 0 <= i < |Survivors(LowerNc, lowerFiles)| && 0 <= r < Rows && 0 <= c < Cols && 0 <= j < NumVars ==>
              combined[|Survivors(UpperNC, upperFiles)| + i, r, c, j] == Slice(LowerNc, Survivors(LowerNc, lowerFiles)[i], j)[r][c]
  {
    var tensorUpper := ProcessAll(UpperNC, upperFiles);
    var tensorLower := ProcessAll(LowerNc, lowerFiles);
    combined := Concatenate(tensorUpper, tensorLower);
  }
}
