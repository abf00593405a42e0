/**
 The grid sampler `get_complex_grid`: a half-open lattice of real parts from
 the top-left corner toward the bottom-right one, a half-open lattice of
 imaginary parts from the top edge downward, and their outer combination.

 NumPy's `np.arange(start, stop, step)` is modelled over exact reals: its
 samples are `start + k*step` for `k = 0, 1, ...` while they lie strictly
 before `stop` in the direction of `step`; a zero step is refused.
 */
module ComplexGrid {
  import opened ComplexNumbers
  import opened Wrappers

  /** The smallest integer not below `x`. */
  function Ceil(x: real): (r: int)
    ensures r as real - 1.0 < x <= r as real
  {
    -((-x).Floor)
  }

  /** The k-th candidate sample of `np.arange(start, stop, step)`. */
  function Sample(start: real, step: real, k: int): real
  {
    start + k as real * step
  }

  /** `x` lies strictly before `stop` when walking from the start in the direction of `step`. */
  predicate BeforeStop(x: real, stop: real, step: real)
  {
    if step > 0.0 then x < stop else x > stop
  }

  /** The length NumPy gives a range: `ceil((stop - start) / step)`, and 0 when that is negative. */
  function ArangeLength(start: real, stop: real, step: real): nat
    requires step != 0.0
  {
    var n := Ceil((stop - start) / step);
    if n < 0 then 0 else n
  }

  /** Scaling both sides of a strict comparison by a non-zero factor keeps or flips it. */
  lemma ScaleLess(k: real, q: real, step: real)
    requires step != 0.0
    ensures step > 0.0 ==> (k * step < q * step <==> k < q)
    ensures step < 0.0 ==> (k * step > q * step <==> k < q)
  {
  }

  /**
   The closed-form length counts the samples: the k-th sample lies before
   `stop` exactly when `k` is below `ArangeLength`.
   */
  lemma ArangeLengthCounts(start: real, stop: real, step: real, k: nat)
    requires step != 0.0
    ensures k < ArangeLength(start, stop, step) <==> BeforeStop(Sample(start, step, k), stop, step)
  {
    var q := (stop - start) / step;
    assert q * step == stop - start;
    ScaleLess(k as real, q, step);
    assert k < ArangeLength(start, stop, step) <==> k as real < q;
  }

  /**
   `np.arange(start, stop, step)`: exactly the samples that lie before
   `stop`, in order, ascending for a positive step and descending for a
   negative one.
   */
  function Arange(start: real, stop: real, step: real): (r: seq<real>)
    requires step != 0.0
    ensures forall k: nat :: k < |r| <==> BeforeStop(Sample(start, step, k), stop, step)
    ensures forall k :: 0 <= k < |r| ==> r[k] == Sample(start, step, k)
    ensures forall k :: 0 < k < |r| ==> (if step > 0.0 then r[k - 1] < r[k] else r[k - 1] > r[k])
  {
    var n := ArangeLength(start, stop, step);
    assert forall k: nat :: k < n <==> BeforeStop(Sample(start, step, k), stop, step) by {
      forall k: nat
        ensures k < n <==> BeforeStop(Sample(start, step, k), stop, step)
      {
        ArangeLengthCounts(start, stop, step, k);
      }
    }
    assert forall k :: 0 < k < n ==> Sample(start, step, k) == Sample(start, step, k - 1) + step by {
      forall k | 0 < k < n
        ensures Sample(start, step, k) == Sample(start, step, k - 1) + step
      {
        assert k as real * step == (k - 1) as real * step + step;
      }
    }
    seq(n, k => Sample(start, step, k))
  }

  /** A NumPy complex array of shape `rows x cols`. */
  datatype Grid = Grid(rows: nat, cols: nat, entries: seq<seq<Complex>>)

  /** The reason the sampler refuses its arguments. */
  datatype GridError = ZeroStep

  /** `entries` holds `rows` rows of `cols` points each. */
  predicate WellShaped(g: Grid)
  {
    |g.entries| == g.rows && forall i :: 0 <= i < |g.entries| ==> |g.entries[i]| == g.cols
  }

  /**
   `get_complex_grid(top_left, bottom_right, step)`: row `i`, column `j`
   holds `real_range[j] + 1j*imag_range[i]`, where `real_range` walks right
   from `top_left.real` by `step` and `imag_range` walks down from
   `top_left.imag` by `step`, both stopping before the bottom-right corner.
   */
  function GetComplexGrid(topLeft: Complex, bottomRight: Complex, step: real): (r: Result<Grid, GridError>)
    ensures r.Failure? <==> step == 0.0
    ensures r.Success? ==> WellShaped(r.value)
    ensures r.Success? ==> forall j: nat ::
      j < r.value.cols <==> BeforeStop(Sample(topLeft.re, step, j), bottomRight.re, step)
    ensures var down := -step; r.Success? ==> forall i: nat ::
      i < r.value.rows <==> BeforeStop(Sample(topLeft.im, down, i), bottomRight.im, down)
    ensures var down := -step; r.Success? ==> forall i, j :: 0 <= i < r.value.rows && 0 <= j < r.value.cols ==>
      r.value.entries[i][j] == Complex(Sample(topLeft.re, step, j), Sample(topLeft.im, down, i))
  {
    if step == 0.0 then Failure(ZeroStep)
    else
      var realRange := Arange(topLeft.re, bottomRight.re, step);
      var imagRange := Arange(topLeft.im, bottomRight.im, -step);
      var rows, cols := |imagRange|, |realRange|;
      Success(Grid(rows, cols, seq(rows, i requires 0 <= i < rows =>
        seq(cols, j requires 0 <= j < cols => Complex(realRange[j], imagRange[i])))))
  }

  /**
   The grid's shape in closed form: `cols = ceil((bottom_right.real -
   top_left.real) / step)` and `rows = ceil((top_left.imag -
   bottom_right.imag) / step)`, each clamped at 0.
   */
  lemma GridShapeIsCeil(topLeft: Complex, bottomRight: Complex, step: real)
    requires step != 0.0
    ensures GetComplexGrid(topLeft, bottomRight, step).Success?
    ensures GetComplexGrid(topLeft, bottomRight, step).value.cols
      == ArangeLength(topLeft.re, bottomRight.re, step)
    ensures GetComplexGrid(topLeft, bottomRight, step).value.rows
      == var n := Ceil((topLeft.im - bottomRight.im) / step); if n < 0 then 0 else n
  {
    var g := GetComplexGrid(topLeft, bottomRight, step).value;
    var cols := ArangeLength(topLeft.re, bottomRight.re, step);
    var rows := ArangeLength(topLeft.im, bottomRight.im, -step);
    if g.cols < cols {
      ArangeLengthCounts(topLeft.re, bottomRight.re, step, g.cols);
    } else if g.cols > cols {
      ArangeLengthCounts(topLeft.re, bottomRight.re, step, cols);
    }
    if g.rows < rows {
      ArangeLengthCounts(topLeft.im, bottomRight.im, -step, g.rows);
    } else if g.rows > rows {
      ArangeLengthCounts(topLeft.im, bottomRight.im, -step, rows);
    }
    assert (bottomRight.im - topLeft.im) / -step == (topLeft.im - bottomRight.im) / step;
  }

  /**
   With a positive step the grid is non-empty exactly when the corners span
   a rectangle, and then its first entry is the top-left corner.
   */
  lemma GridCornerIsTopLeft(topLeft: Complex, bottomRight: Complex, step: real)
    requires step > 0.0
    ensures GetComplexGrid(topLeft, bottomRight, step).Success?
    ensures var g := GetComplexGrid(topLeft, bottomRight, step).value;
      (g.rows > 0 && g.cols > 0 <==> topLeft.re < bottomRight.re && bottomRight.im < topLeft.im)
    ensures var g := GetComplexGrid(topLeft, bottomRight, step).value;
      g.rows > 0 && g.cols > 0 ==> g.entries[0][0] == topLeft
  {
  }

  /** With a positive step, a later sample lies further along than an earlier one. */
  lemma SampleIncreasing(start: real, step: real, a: int, b: int)
    requires step > 0.0 && a < b
    ensures Sample(start, step, a) < Sample(start, step, b)
  {
  }

  /**
   With a positive step, the real part grows from left to right along each
   row, and the imaginary part falls from top to bottom down each column.
   */
  lemma GridOrientation(topLeft: Complex, bottomRight: Complex, step: real)
    requires step > 0.0
    ensures GetComplexGrid(topLeft, bottomRight, step).Success?
    ensures var g := GetComplexGrid(topLeft, bottomRight, step).value;
      forall i, j, j' :: 0 <= i < g.rows && 0 <= j < j' < g.cols ==>
        g.entries[i][j].re < g.entries[i][j'].re && g.entries[i][j].im == g.entries[i][j'].im
    ensures var g := GetComplexGrid(topLeft, bottomRight, step).value;
      forall i, i', j :: 0 <= i < i' < g.rows && 0 <= j < g.cols ==>
        g.entries[i][j].im > g.entries[i'][j].im && g.entries[i][j].re == g.entries[i'][j].re
  {
    var g := GetComplexGrid(topLeft, bottomRight, step).value;
    forall i, j, j' | 0 <= i < g.rows && 0 <= j < j' < g.cols
      ensures g.entries[i][j].re < g.entries[i][j'].re
    {
      SampleIncreasing(topLeft.re, step, j, j');
    }
    forall i, i', j | 0 <= i < i' < g.rows && 0 <= j < g.cols
      ensures g.entries[i][j].im > g.entries[i'][j].im
    {
      SampleIncreasing(-topLeft.im, step, i, i');
    }
  }

  /**
   From `-1+1j` to `1-1j` at unit step: rows at imaginary parts 1 and 0,
   columns at real parts -1 and 0.
   */
  lemma UnitStepExample()
    ensures GetComplexGrid(Complex(-1.0, 1.0), Complex(1.0, -1.0), 1.0)
      == Success(Grid(2, 2, [[Complex(-1.0, 1.0), Complex(0.0, 1.0)],
                             [Complex(-1.0, 0.0), Complex(0.0, 0.0)]]))
  {
    var r := GetComplexGrid(Complex(-1.0, 1.0), Complex(1.0, -1.0), 1.0);
    assert Ceil(2.0) == 2;
    assert ArangeLength(-1.0, 1.0, 1.0) == 2;
    assert ArangeLength(1.0, -1.0, -1.0) == 2;
    assert Arange(-1.0, 1.0, 1.0) == [-1.0, 0.0];
    assert Arange(1.0, -1.0, -1.0) == [1.0, 0.0];
    var g := r.value;
    assert g.rows == 2 && g.cols == 2;
    assert g.entries[0] == [Complex(-1.0, 1.0), Complex(0.0, 1.0)];
    assert g.entries[1] == [Complex(-1.0, 0.0), Complex(0.0, 0.0)];
    assert g.entries == [g.entries[0], g.entries[1]];
  }
}
