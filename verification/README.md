# Mandelbrot escape time, modelled in Dafny

This project models the computational core of a small Mandelbrot renderer
written in Python:

- `get_escape_time(c, max_iterations)` starts from `zn = 0` and applies
  `zn = zn**2 + c` at most `max_iterations` times. It returns the 0-based loop
  index `i` of the first update after which `abs(zn) >= 2`. If no update
  escapes, it returns `None`.
- `get_complex_grid(top_left, bottom_right, step)` builds two ranges with
  `np.arange`. The real parts run rightward from `top_left.real` and the
  imaginary parts run downward from `top_left.imag`. It then returns their
  outer combination as a `rows x cols` complex array.

The model works over exact arithmetic. A complex number is a pair of `real`s.
The test `abs(zn) >= 2` is written as `re*re + im*im >= 4`. The lemma
`AbsAtLeastTwoIffEscaped` shows that this agrees with comparing any
non-negative square root against 2. `Option<nat>` stands for `int | None`.

Files:

- `wrappers.dfy`: the `Option` and `Result` datatypes.
- `complex_numbers.dfy`: the `Complex` datatype, the recurrence step and the escape test.
- `escape_time.dfy`: the reference definitions and the lemmas for the escape time.
  - `Iterate(c, k)` is the value of `zn` after `k` updates.
  - `EscapeIndex(c, n)` defines the escape time by recursion on the budget.
  - `GetEscapeTime` is the loop as the source writes it, with an early return.
- `complex_grid.dfy`: `np.arange` over reals, the grid sampler and its lemmas.

`mandelbrot.py` and `__pycache__/mandelbrot.py` contain the same
`get_escape_time` loop text. Only `__pycache__/mandelbrot.py` has behaviour:
`mandelbrot.py` does not parse, because its docstring is indented with a tab
(line 3) while `zn = 0` is indented with four spaces (line 21), and its
`get_complex_grid` has no body. The rows below that cite `mandelbrot.py`
describe the same loop as `__pycache__/mandelbrot.py:24-31`.

Two modelling choices:

- **Step.** `get_complex_grid` does not check `step`. NumPy refuses only a
  zero step, which `GetComplexGrid` models as `Failure(ZeroStep)`. A
  negative step is accepted: the real range then runs leftward and the
  imaginary range upward, and the model covers that case too.
- **Integer budget.** `GetEscapeTime` takes an `int` budget, as the Python
  signature declares. A negative budget makes `range` empty, so the result
  is `None`. The method does not require a non-negative budget. The
  reference function `EscapeIndex` and the lemmas about it take a `nat`
  budget. The method's contract relates the two for every budget of 0 or
  more.

## Model

| member | source | states |
|---|---|---|
| ComplexNumbers.Step | __pycache__/mandelbrot.py:28 | One update `zn = (zn)**2 + c`, as complex multiplication of `zn` by itself followed by addition of `c`. |
| ComplexNumbers.Escaped | __pycache__/mandelbrot.py:29 | The escape test `abs(zn) >= 2`, stated as `re*re + im*im >= 4`; the threshold is inclusive. |
| EscapeTime.Iterate | __pycache__/mandelbrot.py:24-28 | The value of `zn` after `k` updates: 0 before the loop, then `Step` applied once per iteration. |
| ComplexNumbers.AbsAtLeastTwoIffEscaped | __pycache__/mandelbrot.py:29 | For every non-negative root `a` of `abs(z)**2`, `a >= 2` holds exactly when `z` is `Escaped`. So the squared-modulus test decides the same escapes as `abs(zn) >= 2`. |
| EscapeTime.FirstIterateIsC | __pycache__/mandelbrot.py:24-28 | Starting from `zn = 0`, the first update gives `c` itself. |
| EscapeTime.SecondIterate | __pycache__/mandelbrot.py:24-28 | After two updates from `zn = 0`, `zn` is `c**2 + c`. |
| EscapeTime.EscapeIndex | mandelbrot.py:21-26 | With a budget of 0 the result is `None`. A returned index is always strictly below `max_iterations`. |
| EscapeTime.EscapeIndexIsFirstEscape | __pycache__/mandelbrot.py:24-30 | The result is `i` if and only if three things hold: `i < max_iterations`, iterate `i+1` has modulus at least 2, and iterates `1..i` all have modulus below 2. So `i` is the first escape. |
| EscapeTime.EscapeIndexNoneIffBounded | __pycache__/mandelbrot.py:26-31 | The result is `None` if and only if every iterate `1..max_iterations` has modulus below 2. |
| EscapeTime.EscapeIndexMonotone | mandelbrot.py:22-25 | If budget `n` gives index `i`, then every budget `m > i` gives the same index `i`. |
| EscapeTime.BoundedForSmallerBudget | mandelbrot.py:22-26 | A point that does not escape within budget `n` does not escape within any smaller budget either. |
| EscapeTime.OriginIsFixed | __pycache__/mandelbrot.py:24-28 | For `c = 0`, every iterate is 0. |
| EscapeTime.OriginNeverEscapes | __pycache__/mandelbrot.py:24-31 | For `c = 0`, the result is `None` for every budget. |
| EscapeTime.FarPointEscapesAtZero | mandelbrot.py:23-25 | If `abs(c) >= 2` and the budget is at least 1, the result is 0. |
| EscapeTime.SecondIterateEscapes | __pycache__/mandelbrot.py:26-30 | If the first iterate stays below 2 and the second reaches 2, the result is index 1 for every budget of at least 2. |
| EscapeTime.OneSurvivesOneUpdate | __pycache__/mandelbrot.py:26-31 | For `c = 1` with a budget of 1, the only iterate is 1, so the result is `None`. |
| EscapeTime.OneEscapesOnBoundary | __pycache__/mandelbrot.py:29-30 | The threshold is inclusive. For `c = 1` the second iterate has modulus exactly 2, so the result is index 1 for any budget of at least 2. |
| EscapeTime.GetEscapeTime | __pycache__/mandelbrot.py:24-31 | The loop with early return gives `None` when the budget is 0 or less. It returns `i` only when `i` is the first escape within the budget, and `None` only when no iterate within the budget escapes. It agrees with `EscapeIndex`. |
| ComplexGrid.ArangeLengthCounts | __pycache__/mandelbrot.py:39-41 | NumPy's length `ceil((stop - start) / step)`, clamped at 0, counts the samples. Sample `k` lies strictly before `stop`, in the direction of `step`, if and only if `k` is below that length. |
| ComplexGrid.Arange | __pycache__/mandelbrot.py:39-41 | The range holds exactly the samples `start + k*step` that lie strictly before `stop`, in order of `k`. It is strictly ascending for a positive step and strictly descending for a negative one. |
| ComplexGrid.GetComplexGrid | __pycache__/mandelbrot.py:33-52 | A zero step fails; any other step succeeds in the model. The grid is `rows x cols`. `cols` counts the samples `top_left.real + j*step` before `bottom_right.real`. `rows` counts the samples `top_left.imag - i*step` beyond `bottom_right.imag`. Entry `[i][j]` is `real_range[j] + 1j*imag_range[i]`. |
| ComplexGrid.GridShapeIsCeil | __pycache__/mandelbrot.py:39-45 | For any non-zero step, `cols = ceil((bottom_right.real - top_left.real) / step)` and `rows = ceil((top_left.imag - bottom_right.imag) / step)`, each clamped at 0. |
| ComplexGrid.GridCornerIsTopLeft | __pycache__/mandelbrot.py:39-51 | With a positive step, the grid is non-empty exactly when `top_left.real < bottom_right.real` and `bottom_right.imag < top_left.imag`. A non-empty grid starts with `top_left`. |
| ComplexGrid.GridOrientation | __pycache__/mandelbrot.py:39-51 | With a positive step, the real part strictly increases from left to right along every row, and the imaginary part stays the same. Down every column, the imaginary part strictly decreases and the real part stays the same. |
| ComplexGrid.UnitStepExample | __pycache__/mandelbrot.py:33-52 | With corners `-1+1j` and `1-1j` and step 1, the grid is `[[-1+1j, 0+1j], [-1+0j, 0+0j]]`. |

## Left out

- Floating point. The model uses exact reals, so it does not cover IEEE rounding, including rounding in the length NumPy computes for a range. It also does not cover overflow of `zn` or the `sqrt` inside `abs`.
- NumPy mechanics. The `np.zeros` array at `__pycache__/mandelbrot.py:48` is overwritten before use. The broadcasting and reshape at line 51 appear only through the entry formula they produce.
- The `get_complex_grid` in `mandelbrot.py` (lines 28-33) has no body, so it has no behaviour to model. That file also mixes tab and space indentation (a tab at line 3, four spaces at line 21), so as written it does not parse; only `__pycache__/mandelbrot.py` has behaviour.
- Non-integer budgets. `range` rejects them with a `TypeError`, and the model's budget is an integer.
- The vectorised intensity evaluator, plotting and image output are not part of this model. None of them appears in the source.
- GetComplexGrid: range lengths and array sizes are unbounded in the model. NumPy refuses a range whose length does not fit its index type (for example `np.arange(0.0, 1.0, 1e-300)`) and an array it cannot allocate; the model succeeds for every non-zero step.
- Exception type. NumPy raises an exception for a zero step. The model reports it as `Failure(ZeroStep)` and does not model the exception's type.
