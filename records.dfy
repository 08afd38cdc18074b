/** Per-file record building: the two readers `process_NC_file` (the `.NC`
    archive) and `process_nc_file` (the `.nc` archive), written as one builder
    over a name table, each keeping its own failure rules. */
module Records {
  import opened NdArrays

  datatype Option<T> = None | Some(value: T)

  /** A stored netCDF variable: its array and its `_FillValue`, if declared. */
  datatype Variable = Variable(data: NdArray, fill: Option<int>)

  /** An input file: either one that `nc.Dataset` cannot open, or the
      variables it holds by name. */
  datatype File = Corrupt | Readable(vars: map<string, Variable>)

  /** The exceptions a reader can raise; the batch collector catches all of them. */
  datatype Error =
    | DecodeError                  // nc.Dataset cannot open the file
    | KeyError(name: string)       // dataset.variables[name] is absent
    | IndexError(name: string)     // too many indices, or index 0 on an empty axis
    | AttributeError(name: string) // the variable has no _FillValue

  datatype Result<T> = Ok(value: T) | Err(error: Error)

  /** What a reader stores under a variable name in its dict: an ndarray, or
      the bare float `np.nan` that `process_nc_file` stores for an unexpected rank. */
  datatype Value = Arr(a: NdArray) | NaNScalar

  /** The dict `data` a reader returns. */
  type Record = map<string, Value>

  /** The two archive conventions: `.NC` files read by `process_NC_file` and
      `.nc` files read by `process_nc_file`. */
  datatype Schema = UpperNC | LowerNc

  /** Native grid of the all-NaN stand-in for a variable absent from a `.nc` file. */
  const NativeRows: nat := 231
  const NativeCols: nat := 297

  /** The variable names each reader extracts, in tensor order. */
  function Names(schema: Schema): (ns: seq<string>)
    ensures |ns| == 7
  {
    match schema
    case UpperNC => ["u", "v", "t", "rh", "msl", "ps", "pcp"]
    case LowerNc => ["u", "v", "t", "rh", "slp", "ps", "tp"]
  }

  /** Why `values[0, 0, :, :]` and the `_FillValue` lookup of
      `process_NC_file` fail for a variable, if they do. */
  predicate UpperFails(vars: map<string, Variable>, name: string)
  {
    name !in vars
    || |vars[name].data.shape| < 4
    || vars[name].data.shape[0] == 0
    || vars[name].data.shape[1] == 0
    || vars[name].fill.None?
  }

  /** One iteration of the loop of `process_NC_file`: read `[0, 0, :, :]`,
      read `_FillValue`, mask. Errors come in the order Python raises them. */
  function ExtractUpper(vars: map<string, Variable>, name: string): (r: Result<Value>)
    ensures r.Err? <==> UpperFails(vars, name)
    ensures r.Ok? ==> r.value.Arr? && r.value.a.shape == vars[name].data.shape[2..]
  {
    if name !in vars then Err(KeyError(name))
    else
      var a := vars[name].data;
      if |a.shape| < 4 || a.shape[0] == 0 || a.shape[1] == 0 then Err(IndexError(name))
      else if vars[name].fill.None? then Err(AttributeError(name))
      else Ok(Arr(Mask(Index0(Index0(a)), vars[name].fill.value)))
  }

  /** Every cell of a `.NC` variable's extracted grid is the masked cell at
      `[0, 0, idx]` of the stored array. */
  lemma UpperCell(vars: map<string, Variable>, name: string, idx: seq<nat>)
    requires !UpperFails(vars, name)
    requires InBounds(vars[name].data.shape[2..], idx)
    ensures InBounds(vars[name].data.shape, [0, 0] + idx)
    ensures ExtractUpper(vars, name).Ok?
    ensures Elem(ExtractUpper(vars, name).value.a, idx)
         == MaskCell(Elem(vars[name].data, [0, 0] + idx), vars[name].fill.value)
  {
    var a := vars[name].data;
    var b := Index0(a);
    assert b.shape[1..] == a.shape[2..];
    Index0Elem(b, idx);
    Index0Elem(a, [0] + idx);
    assert [0] + ([0] + idx) == [0, 0] + idx;
    MaskElem(Index0(b), vars[name].fill.value, idx);
  }

  /** `np.where(x == fill, np.nan, x)` when a fill value is declared, `x` otherwise. */
  function MaskIfDeclared(x: Cell, fill: Option<int>): Cell
  {
    if fill.Some? then MaskCell(x, fill.value) else x
  }

  /** The masking step of `process_nc_file` on what it stored: an array is
      masked cell by cell; the bare `np.nan` becomes a 0-d array. */
  function MaskValue(v: Value, fill: int): (m: Value)
    ensures m.Arr?
  {
    match v
    case Arr(a) => Arr(Mask(a, fill))
    case NaNScalar => Arr(Mask(Full([], NaN), fill))
  }

  /** One iteration of the loop of `process_nc_file`: an absent variable
      becomes an all-NaN 231 x 297 array; rank 2 is kept, rank 3 gives its
      first slice (IndexError when that axis is empty), any other rank the bare
      `np.nan`; then a declared `_FillValue` is masked. */
  function ExtractLower(vars: map<string, Variable>, name: string): (r: Result<Value>)
    ensures r.Err? <==> name in vars && |vars[name].data.shape| == 3 && vars[name].data.shape[0] == 0
    ensures name !in vars ==> r == Ok(Arr(Full([NativeRows, NativeCols], NaN)))
  {
    if name !in vars then Ok(Arr(Full([NativeRows, NativeCols], NaN)))
    else
      var a := vars[name].data;
      if |a.shape| == 3 && a.shape[0] == 0 then Err(IndexError(name))
      else
        var v :=
          if |a.shape| == 2 then Arr(a)
          else if |a.shape| == 3 then Arr(Index0(a))
          else NaNScalar;
        match vars[name].fill
        case None => Ok(v)
        case Some(f) => Ok(MaskValue(v, f))
  }

  /** For a `.nc` variable of rank 2 or 3 the extracted value is a 2-D array
      holding the (masked, when `_FillValue` is declared) cells of the stored
      array itself or of its first slice. */
  lemma LowerCell(vars: map<string, Variable>, name: string, idx: seq<nat>)
    requires name in vars
    requires |vars[name].data.shape| == 2 || (|vars[name].data.shape| == 3 && vars[name].data.shape[0] > 0)
    requires InBounds(vars[name].data.shape[|vars[name].data.shape| - 2..], idx)
    ensures ExtractLower(vars, name).Ok? && ExtractLower(vars, name).value.Arr?
    ensures ExtractLower(vars, name).value.a.shape == vars[name].data.shape[|vars[name].data.shape| - 2..]
    ensures var lead := if |vars[name].data.shape| == 3 then [0] else [];
            InBounds(vars[name].data.shape, lead + idx) &&
            Elem(ExtractLower(vars, name).value.a, idx)
              == MaskIfDeclared(Elem(vars[name].data, lead + idx), vars[name].fill)
  {
    var a := vars[name].data;
    var raw: NdArray := if |a.shape| == 2 then a else Index0(a);
    var lead: seq<nat> := if |a.shape| == 3 then [0] else [];
    if |a.shape| == 3 {
      Index0Elem(a, idx);
    } else {
      assert a.shape[0..] == a.shape;
      assert lead + idx == idx;
    }
    assert Elem(raw, idx) == Elem(a, lead + idx);
    if vars[name].fill.Some? {
      MaskElem(raw, vars[name].fill.value, idx);
    }
  }

  /** A `.nc` variable of any rank other than 2 and 3 is stored as something
      that is not a 2-D array, so it ends up as an all-NaN slice. */
  lemma LowerOtherRank(vars: map<string, Variable>, name: string)
    requires name in vars && |vars[name].data.shape| != 2 && |vars[name].data.shape| != 3
    ensures ExtractLower(vars, name).Ok?
    ensures var v := ExtractLower(vars, name).value; !(v.Arr? && |v.a.shape| == 2)
    ensures vars[name].fill.None? ==> ExtractLower(vars, name).value == NaNScalar
    ensures vars[name].fill.Some? ==> ExtractLower(vars, name).value.Arr? && ExtractLower(vars, name).value.a.shape == []
  {
  }

  /** One loop iteration of either reader. */
  function Extract(schema: Schema, vars: map<string, Variable>, name: string): (r: Result<Value>)
    ensures schema == UpperNC ==> (r.Err? <==> UpperFails(vars, name))
    ensures schema == LowerNc ==>
              (r.Err? <==> name in vars && |vars[name].data.shape| == 3 && vars[name].data.shape[0] == 0)
  {
    match schema
    case UpperNC => ExtractUpper(vars, name)
    case LowerNc => ExtractLower(vars, name)
  }

  /** The dict after the loop has run over the names `ns`, or the first
      exception it raised. */
  function BuildNames(schema: Schema, vars: map<string, Variable>, ns: seq<string>): (r: Result<Record>)
    ensures r.Ok? ==> r.value.Keys == set n | n in ns
    decreases |ns|
  {
    if ns == [] then Ok(map[])
    else
      var last := ns[|ns| - 1];
      match BuildNames(schema, vars, ns[..|ns| - 1])
      case Err(e) => Err(e)
      case Ok(data) =>
        match Extract(schema, vars, last)
        case Err(e) => Err(e)
        case Ok(v) => Ok(data[last := v])
  }

  /** What a reader returns for a file, or the exception it raises. */
  function Build(schema: Schema, f: File): (r: Result<Record>)
    ensures f.Corrupt? ==> r == Err(DecodeError)
  {
    match f
    case Corrupt => Err(DecodeError)
    case Readable(vars) => BuildNames(schema, vars, Names(schema))
  }

  /** An exception ends the loop: later iterations do not change the outcome. */
  lemma {:induction false} ErrorPersists(schema: Schema, vars: map<string, Variable>, ns: seq<string>, k: nat)
    requires k <= |ns|
    requires BuildNames(schema, vars, ns[..k]).Err?
    ensures BuildNames(schema, vars, ns) == BuildNames(schema, vars, ns[..k])
    decreases |ns|
  {
    if k < |ns| {
      var init := ns[..|ns| - 1];
      assert init[..k] == ns[..k];
      ErrorPersists(schema, vars, init, k);
    } else {
      assert ns[..k] == ns;
    }
  }

  /** The loop over `ns` completes exactly when every name in `ns` extracts. */
  lemma {:induction false} BuildNamesOk(schema: Schema, vars: map<string, Variable>, ns: seq<string>)
    ensures BuildNames(schema, vars, ns).Ok? <==> forall n :: n in ns ==> Extract(schema, vars, n).Ok?
    decreases |ns|
  {
    if ns != [] {
      var init, last := ns[..|ns| - 1], ns[|ns| - 1];
      assert ns == init + [last];
      BuildNamesOk(schema, vars, init);
    }
  }

  /** A completed loop leaves a dict holding exactly the names of `ns`, each
      with its extracted value. */
  lemma {:induction false} BuildNamesRecord(schema: Schema, vars: map<string, Variable>, ns: seq<string>)
    requires BuildNames(schema, vars, ns).Ok?
    ensures BuildNames(schema, vars, ns).value.Keys == set n | n in ns
    ensures forall n :: n in ns ==>
              Extract(schema, vars, n).Ok? && BuildNames(schema, vars, ns).value[n] == Extract(schema, vars, n).value
    decreases |ns|
  {
    if ns != [] {
      var init, last := ns[..|ns| - 1], ns[|ns| - 1];
      assert ns == init + [last];
      BuildNamesRecord(schema, vars, init);
      assert (set n | n in ns) == (set n | n in init) + {last};
    }
  }

  /** A failed loop raised the error of the first name of `ns` that fails. */
  lemma {:induction false} BuildNamesErr(schema: Schema, vars: map<string, Variable>, ns: seq<string>)
    requires BuildNames(schema, vars, ns).Err?
    ensures exists i :: 0 <= i < |ns|
              && Extract(schema, vars, ns[i]) == Err(BuildNames(schema, vars, ns).error)
              && forall j :: 0 <= j < i ==> Extract(schema, vars, ns[j]).Ok?
    decreases |ns|
  {
    var init, last := ns[..|ns| - 1], ns[|ns| - 1];
    if BuildNames(schema, vars, init).Err? {
      BuildNamesErr(schema, vars, init);
      var i :| 0 <= i < |init|
        && Extract(schema, vars, init[i]) == Err(BuildNames(schema, vars, init).error)
        && forall j :: 0 <= j < i ==> Extract(schema, vars, init[j]).Ok?;
      assert ns[i] == init[i];
    } else {
      BuildNamesOk(schema, vars, init);
      var i := |ns| - 1;
      forall j | 0 <= j < i
        ensures Extract(schema, vars, ns[j]).Ok?
      {
        assert ns[j] == init[j];
      }
    }
  }

  /** A file yields a record exactly when it opens and every name extracts;
      the record then holds exactly the reader's names, each with its value;
      otherwise the reader raised the error of the first name that fails. */
  lemma BuildOutcome(schema: Schema, f: File)
    ensures Build(schema, f).Ok? <==>
              f.Readable? && forall n :: n in Names(schema) ==> Extract(schema, f.vars, n).Ok?
    ensures Build(schema, f).Ok? ==>
              Build(schema, f).value.Keys == (set n | n in Names(schema))
              && forall n :: n in Names(schema) ==> Build(schema, f).value[n] == Extract(schema, f.vars, n).value
    ensures f.Readable? && Build(schema, f).Err? ==>
              exists i :: 0 <= i < |Names(schema)|
                && Extract(schema, f.vars, Names(schema)[i]) == Err(Build(schema, f).error)
                && forall j :: 0 <= j < i ==> Extract(schema, f.vars, Names(schema)[j]).Ok?
  {
    if f.Readable? {
      BuildNamesOk(schema, f.vars, Names(schema));
      if Build(schema, f).Ok? {
        BuildNamesRecord(schema, f.vars, Names(schema));
      } else {
        BuildNamesErr(schema, f.vars, Names(schema));
      }
    }
  }

  /** The value a record holds under one of its reader's names. */
  lemma RecordValue(schema: Schema, f: File, n: string)
    requires Build(schema, f).Ok? && n in Names(schema)
    ensures f.Readable? && Extract(schema, f.vars, n).Ok?
    ensures n in Build(schema, f).value && Build(schema, f).value[n] == Extract(schema, f.vars, n).value
  {
    BuildOutcome(schema, f);
  }

  /** `process_NC_file` raises, and the collector drops the file, exactly when
      the file does not open or some name is missing, has fewer than four axes,
      has an empty first or second axis, or has no `_FillValue`. */
  lemma UpperDropped(f: File)
    ensures Build(UpperNC, f).Err? <==>
              f.Corrupt? || (exists n :: n in Names(UpperNC) && UpperFails(f.vars, n))
  {
    BuildOutcome(UpperNC, f);
  }

  /** `process_nc_file` tolerates absent variables and fill values: it raises
      only when the file does not open or some name holds a rank-3 array with
      an empty leading axis. An absent name is stored as the all-NaN 231 x 297
      array. */
  lemma LowerDropped(f: File)
    ensures Build(LowerNc, f).Err? <==>
              f.Corrupt? || (exists n :: n in Names(LowerNc) && n in f.vars
                               && |f.vars[n].data.shape| == 3 && f.vars[n].data.shape[0] == 0)
    ensures Build(LowerNc, f).Ok? ==> Build(LowerNc, f).value.Keys == set n | n in Names(LowerNc)
    ensures Build(LowerNc, f).Ok? ==>
              forall n :: n in Names(LowerNc) && n !in f.vars ==>
                Build(LowerNc, f).value[n] == Arr(Full([NativeRows, NativeCols], NaN))
  {
    BuildOutcome(LowerNc, f);
  }

  /** The reader itself: the `for var` loop filling the dict `data`. */
  method BuildRecord(schema: Schema, f: File) returns (r: Result<Record>)
    ensures r == Build(schema, f)
  {
    if f.Corrupt? {
      return Err(DecodeError);
    }
    var names := Names(schema);
    var data: Record := map[];
    for k := 0 to |names|
      invariant BuildNames(schema, f.vars, names[..k]) == Ok(data)
    {
      assert names[..k + 1][..k] == names[..k];
      var e := Extract(schema, f.vars, names[k]);
      if e.Err? {
        ErrorPersists(schema, f.vars, names, k + 1);
        return Err(e.error);
      }
      data := data[names[k] := e.value];
    }
    assert names[..|names|] == names;
    r := Ok(data);
  }
}
