/** N-dimensional grids as NumPy holds them: a shape and the cells in
    row-major (C) order, with the indexing, masking and cropping that the
    extraction pipeline applies to them. */
module NdArrays {

  /** One grid cell: a stored measurement, or the not-a-number marker that
      fill-value masking writes. IEEE arithmetic is not modelled; only equality
      and replacement are used. */
  datatype Cell = Val(v: int) | NaN

  datatype RawArray = RawArray(shape: seq<nat>, cells: seq<Cell>)

  /** Number of cells of an array of the given shape (1 for a 0-d array). */
  function Product(shape: seq<nat>): nat
  {
    if shape == [] then 1 else shape[0] * Product(shape[1..])
  }

  /** A well-formed array: as many cells as its shape says. */
  type NdArray = a: RawArray | |a.cells| == Product(a.shape) witness RawArray([], [NaN])

  /** A 2-D grid as a sequence of rows, the form of a window written into the tensor. */
  type Grid = seq<seq<Cell>>

  predicate IsGrid(g: Grid, rows: nat, cols: nat)
  {
    |g| == rows && forall r :: 0 <= r < rows ==> |g[r]| == cols
  }

  /** A multi-index that addresses one cell of an array of the given shape. */
  predicate InBounds(shape: seq<nat>, idx: seq<nat>)
  {
    |idx| == |shape| && forall k :: 0 <= k < |idx| ==> idx[k] < shape[k]
  }

  lemma MulStep(i: nat, n: nat, p: nat, rest: nat)
    requires i < n && rest < p
    ensures i * p + rest < n * p
  {
    assert (i + 1) * p <= n * p;
  }

  lemma AtLeastOnce(n: nat, p: nat)
    requires n >= 1
    ensures p <= n * p
  {
  }

  /** Row-major position of a multi-index; it always falls inside the cells. */
  function Offset(shape: seq<nat>, idx: seq<nat>): (off: nat)
    requires InBounds(shape, idx)
    ensures off < Product(shape)
    decreases |idx|
  {
    if idx == [] then 0
    else
      assert InBounds(shape[1..], idx[1..]);
      var rest := Offset(shape[1..], idx[1..]);
      MulStep(idx[0], shape[0], Product(shape[1..]), rest);
      idx[0] * Product(shape[1..]) + rest
  }

  /** `a[idx]` for a full multi-index. */
  function Elem(a: NdArray, idx: seq<nat>): Cell
    requires InBounds(a.shape, idx)
  {
    a.cells[Offset(a.shape, idx)]
  }

  /** An array of the given shape with every cell equal to `c`
      (`np.nan * np.ones(shape)` when `c` is NaN). */
  function Full(shape: seq<nat>, c: Cell): (a: NdArray)
    ensures a.shape == shape
  {
    RawArray(shape, seq(Product(shape), _ => c))
  }

  lemma FullElem(shape: seq<nat>, c: Cell, idx: seq<nat>)
    requires InBounds(shape, idx)
    ensures Elem(Full(shape, c), idx) == c
  {
  }

  /** `a[0]`: the first sub-array along the leading axis. NumPy raises
      IndexError when that axis is empty, hence the precondition; callers
      model that error themselves. */
  function Index0(a: NdArray): (b: NdArray)
    requires |a.shape| >= 1 && a.shape[0] >= 1
    ensures b.shape == a.shape[1..]
  {
    assert Product(a.shape) == a.shape[0] * Product(a.shape[1..]);
    AtLeastOnce(a.shape[0], Product(a.shape[1..]));
    RawArray(a.shape[1..], a.cells[..Product(a.shape[1..])])
  }

  /** Indexing the first sub-array is indexing the array with a leading 0. */
  lemma Index0Elem(a: NdArray, idx: seq<nat>)
    requires |a.shape| >= 1 && a.shape[0] >= 1
    requires InBounds(a.shape[1..], idx)
    ensures InBounds(a.shape, [0] + idx)
    ensures Elem(Index0(a), idx) == Elem(a, [0] + idx)
  {
    var full := [0] + idx;
    assert full[1..] == idx;
    assert InBounds(a.shape, full);
    assert Offset(a.shape, full) == Offset(a.shape[1..], idx);
  }

  /** The fill-value rule for one cell: `np.where(x == fill, np.nan, x)`. */
  function MaskCell(x: Cell, fill: int): Cell
  {
    if x == Val(fill) then NaN else x
  }

  /** `np.where(a == fill, np.nan, a)`, applied cell by cell. */
  function Mask(a: NdArray, fill: int): (m: NdArray)
    ensures m.shape == a.shape
  {
    RawArray(a.shape, seq(|a.cells|, k requires 0 <= k < |a.cells| => MaskCell(a.cells[k], fill)))
  }

  /** Masking keeps the shape; a cell becomes NaN exactly when it equals the
      fill value (or was NaN already), and every other cell is unchanged. */
  lemma MaskElem(a: NdArray, fill: int, idx: seq<nat>)
    requires InBounds(a.shape, idx)
    ensures InBounds(Mask(a, fill).shape, idx)
    ensures Elem(Mask(a, fill), idx) == NaN <==> Elem(a, idx) == Val(fill) || Elem(a, idx) == NaN
    ensures Elem(a, idx) != Val(fill) ==> Elem(Mask(a, fill), idx) == Elem(a, idx)
    ensures Elem(Mask(a, fill), idx) != Val(fill)
  {
  }

  lemma Product2(shape: seq<nat>)
    requires |shape| == 2
    ensures Product(shape) == shape[0] * shape[1]
  {
    assert shape[1..][1..] == [];
    assert Product(shape[1..][1..]) == 1;
    assert Product(shape[1..]) == shape[1] * 1;
  }

  /** `a[r, c]` of a 2-D array. */
  function At(a: NdArray, r: nat, c: nat): Cell
    requires |a.shape| == 2 && r < a.shape[0] && c < a.shape[1]
  {
    Product2(a.shape);
    MulStep(r, a.shape[0], a.shape[1], c);
    a.cells[r * a.shape[1] + c]
  }

  /** `At` is indexing with the two-element multi-index. */
  lemma AtElem(a: NdArray, r: nat, c: nat)
    requires |a.shape| == 2 && r < a.shape[0] && c < a.shape[1]
    ensures InBounds(a.shape, [r, c])
    ensures At(a, r, c) == Elem(a, [r, c])
  {
    var idx := [r, c];
    Product2(a.shape);
    assert idx[1..] == [c];
    assert a.shape[1..][1..] == [];
    assert [c][1..] == [];
    assert Offset(a.shape[1..], [c]) == c;
  }

  /** `a[:rows, :cols]` of a 2-D array: its top-left window. The slice stays
      inside the array, which the precondition states. */
  function Window(a: NdArray, rows: nat, cols: nat): (g: Grid)
    requires |a.shape| == 2 && rows <= a.shape[0] && cols <= a.shape[1]
    ensures IsGrid(g, rows, cols)
    ensures forall r, c :: 0 <= r < rows && 0 <= c < cols ==> g[r][c] == At(a, r, c)
  {
    seq(rows, r requires 0 <= r < rows => seq(cols, c requires 0 <= c < cols => At(a, r, c)))
  }

  /** A rows x cols grid with every cell `c`. */
  function Constant(rows: nat, cols: nat, c: Cell): (g: Grid)
    ensures IsGrid(g, rows, cols)
    ensures forall r, k :: 0 <= r < rows && 0 <= k < cols ==> g[r][k] == c
  {
    seq(rows, _ => seq(cols, _ => c))
  }
}
