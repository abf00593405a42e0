/**
 The scalar escape-time evaluator `get_escape_time`: starting from `zn = 0`
 it applies `zn := zn**2 + c` at most `max_iterations` times and reports the
 0-based index of the first iterate with `abs(zn) >= 2`, or `None`.

 The iterates are numbered from 1: `Iterate(c, k)` is the value of `zn`
 after `k` updates, so an escape reported as index `i` is `Iterate(c, i + 1)`.
 */
module EscapeTime {
  import opened ComplexNumbers
  import opened Wrappers

  /** The k-th iterate of the recurrence `z0 = 0`, `z(k+1) = z(k)**2 + c`. */
  function Iterate(c: Complex, k: nat): Complex
  {
    if k == 0 then Zero else Step(Iterate(c, k - 1), c)
  }

  /** None of the iterates `1 .. n` has escaped (vacuous for `n <= 0`). */
  ghost predicate StaysBounded(c: Complex, n: int)
  {
    forall k: nat :: 1 <= k <= n ==> !Escaped(Iterate(c, k))
  }

  /**
   `i` is what `get_escape_time(c, n)` should report: the update at loop
   index `i` happens within the budget, its result escapes, and every
   earlier update stayed below the threshold.
   */
  ghost predicate IsFirstEscape(c: Complex, n: int, i: nat)
  {
    i < n && Escaped(Iterate(c, i + 1)) && StaysBounded(c, i)
  }

  /**
   Reference definition of the escape time, by recursion on the budget:
   one more unit of budget can only add the check of one more iterate.
   A budget of zero runs no iteration, as `range` is then empty.
   */
  function EscapeIndex(c: Complex, maxIterations: nat): (r: Option<nat>)
    ensures maxIterations == 0 ==> r == None
    ensures r.Some? ==> r.value < maxIterations
  {
    if maxIterations == 0 then None
    else
      match EscapeIndex(c, maxIterations - 1)
      case Some(i) => Some(i)
      case None =>
        if Escaped(Iterate(c, maxIterations)) then Some(maxIterations - 1) else None
  }

  /** There is at most one first escape, whatever the budget. */
  lemma FirstEscapeUnique(c: Complex, n: int, m: int, i: nat, j: nat)
    requires IsFirstEscape(c, n, i) && IsFirstEscape(c, m, j)
    ensures i == j
  {
  }

  /** `EscapeIndex` is `None` exactly when no iterate within the budget escaped. */
  lemma {:induction false} EscapeIndexNoneIffBounded(c: Complex, n: nat)
    ensures EscapeIndex(c, n) == None <==> StaysBounded(c, n)
  {
    if n > 0 {
      EscapeIndexNoneIffBounded(c, n - 1);
      if EscapeIndex(c, n) == None {
        assert StaysBounded(c, n - 1) && !Escaped(Iterate(c, n));
        forall k: nat | 1 <= k <= n
          ensures !Escaped(Iterate(c, k))
        {
          if k < n {
            assert 1 <= k <= n - 1;
          }
        }
      }
    }
  }

  /** `EscapeIndex` returns `i` exactly when `i` is the first escape within the budget. */
  lemma {:induction false} EscapeIndexIsFirstEscape(c: Complex, n: nat, i: nat)
    ensures EscapeIndex(c, n) == Some(i) <==> IsFirstEscape(c, n, i)
  {
    if n > 0 {
      match EscapeIndex(c, n - 1)
      case Some(j) =>
        EscapeIndexIsFirstEscape(c, n - 1, j);
        if IsFirstEscape(c, n, i) {
          FirstEscapeUnique(c, n, n - 1, i, j);
        }
      case None =>
        EscapeIndexNoneIffBounded(c, n - 1);
        if Escaped(Iterate(c, n)) {
          assert IsFirstEscape(c, n, n - 1);
          if IsFirstEscape(c, n, i) {
            FirstEscapeUnique(c, n, n, i, n - 1);
          }
        }
    }
  }

  /**
   Budget monotonicity: once a point escapes at index `i`, every budget
   that lets the loop reach index `i` reports the same index.
   */
  lemma {:induction false} EscapeIndexMonotone(c: Complex, n: nat, m: nat, i: nat)
    requires EscapeIndex(c, n) == Some(i)
    requires i < m
    ensures EscapeIndex(c, m) == Some(i)
  {
    EscapeIndexIsFirstEscape(c, n, i);
    EscapeIndexIsFirstEscape(c, m, i);
  }

  /** A point that survives a budget survives every smaller budget. */
  lemma {:induction false} BoundedForSmallerBudget(c: Complex, n: nat, m: nat)
    requires EscapeIndex(c, n) == None
    requires m <= n
    ensures EscapeIndex(c, m) == None
  {
    EscapeIndexNoneIffBounded(c, n);
    EscapeIndexNoneIffBounded(c, m);
  }

  /** The origin is a fixed point of the recurrence for `c = 0`. */
  lemma {:induction false} OriginIsFixed(k: nat)
    ensures Iterate(Zero, k) == Zero
  {
    if k > 0 {
      OriginIsFixed(k - 1);
    }
  }

  /** For `c = 0` no iterate reaches the threshold. */
  lemma OriginStaysBounded(n: int)
    ensures StaysBounded(Zero, n)
  {
    forall k: nat | 1 <= k <= n
      ensures !Escaped(Iterate(Zero, k))
    {
      OriginIsFixed(k);
      assert !Escaped(Iterate(Zero, k)) by {
        assert Iterate(Zero, k) == Zero;
        assert NormSq(Zero) == 0.0;
      }
    }
  }

  /** For `c = 0` the iterate stays 0, so no budget ever sees an escape. */
  lemma OriginNeverEscapes(n: nat)
    ensures EscapeIndex(Zero, n) == None
  {
    OriginStaysBounded(n);
    EscapeIndexNoneIffBounded(Zero, n);
  }

  /** The first update turns `zn = 0` into `c` itself. */
  lemma FirstIterateIsC(c: Complex)
    ensures Iterate(c, 1) == c
  {
    assert Iterate(c, 0) == Zero;
    assert Mul(Zero, Zero) == Zero;
  }

  /** The first iterate is `c` itself, so `|c| >= 2` escapes at index 0. */
  lemma {:induction false} FarPointEscapesAtZero(c: Complex, n: nat)
    requires Escaped(c)
    requires n >= 1
    ensures EscapeIndex(c, n) == Some(0)
  {
    FirstIterateIsC(c);
    assert IsFirstEscape(c, n, 0);
    EscapeIndexIsFirstEscape(c, n, 0);
  }

  /**
   A point whose first iterate stays below the threshold and whose second
   reaches it escapes at index 1 under every budget of at least 2.
   */
  lemma {:induction false} SecondIterateEscapes(c: Complex, n: nat)
    requires !Escaped(Iterate(c, 1)) && Escaped(Iterate(c, 2))
    requires n >= 2
    ensures EscapeIndex(c, n) == Some(1)
  {
    assert StaysBounded(c, 1) by {
      forall k: nat | 1 <= k <= 1
        ensures !Escaped(Iterate(c, k))
      {
        assert k == 1;
      }
    }
    assert IsFirstEscape(c, n, 1);
    EscapeIndexIsFirstEscape(c, n, 1);
  }

  /** The second update turns `c` into `c**2 + c`. */
  lemma SecondIterate(c: Complex)
    ensures Iterate(c, 1) == c
    ensures Iterate(c, 2) == Add(Mul(c, c), c)
  {
    FirstIterateIsC(c);
  }

  /** For `c = 1` the iterates are 1 and then exactly 2. */
  lemma IteratesOfOne()
    ensures Iterate(Complex(1.0, 0.0), 1) == Complex(1.0, 0.0)
    ensures Iterate(Complex(1.0, 0.0), 2) == Complex(2.0, 0.0)
  {
    SecondIterate(Complex(1.0, 0.0));
  }

  /** For `c = 1` the first iterate stays below the threshold and the second lies on it. */
  lemma OneStraddlesThreshold()
    ensures !Escaped(Iterate(Complex(1.0, 0.0), 1))
    ensures Escaped(Iterate(Complex(1.0, 0.0), 2))
  {
    IteratesOfOne();
  }

  /** For `c = 1` a budget of one update sees only the iterate 1, which stays below 2. */
  lemma OneSurvivesOneUpdate()
    ensures EscapeIndex(Complex(1.0, 0.0), 1) == None
  {
    OneStraddlesThreshold();
  }

  /**
   The threshold is inclusive: for `c = 1` the second iterate has modulus
   exactly 2, so the point escapes at index 1 once the budget reaches 2.
   */
  lemma OneEscapesOnBoundary(n: nat)
    requires n >= 2
    ensures EscapeIndex(Complex(1.0, 0.0), n) == Some(1)
  {
    OneStraddlesThreshold();
    SecondIterateEscapes(Complex(1.0, 0.0), n);
  }

  /**
   `get_escape_time(c, max_iterations)`: the loop of the source, with an
   early return at the first iterate whose modulus reaches 2.
   */
  method GetEscapeTime(c: Complex, maxIterations: int) returns (r: Option<nat>)
    ensures maxIterations <= 0 ==> r == None
    ensures r.Some? ==> IsFirstEscape(c, maxIterations, r.value)
    ensures r.None? ==> StaysBounded(c, maxIterations)
    ensures maxIterations >= 0 ==> r == EscapeIndex(c, maxIterations)
  {
    var zn := Zero;
    var i := 0;
    while i < maxIterations
      invariant 0 <= i
      invariant zn == Iterate(c, i)
      invariant StaysBounded(c, i)
    {
      zn := Step(zn, c);
      if Escaped(zn) {
        r := Some(i);
        EscapeIndexIsFirstEscape(c, maxIterations, i);
        return;
      }
      i := i + 1;
    }
    r := None;
    if maxIterations >= 0 {
      EscapeIndexNoneIffBounded(c, maxIterations);
    }
  }
}
