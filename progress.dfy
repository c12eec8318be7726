/**
 * `ProgressBar` of src/segmentize_and_lookup.py: a counter `value` out of
 * `high`, rendered as a bar of 20 cells built with integer floor division.
 */
module Progress {
  import opened Results

  /** Number of cells the bar is divided into. */
  const Cells: int := 20

  /** The filled-cell count `(20 * value) // high`. Dafny's `/` agrees with
      Python's `//` because the divisor is positive. */
  function FilledCount(high: nat, value: nat): (filled: int)
    requires high > 0
  {
    (Cells * value) / high
  }

  /** The blank-cell count `(20 * (high - value)) // high`; negative once
      `value` passes `high`. */
  function BlankCount(high: nat, value: nat): (blank: int)
    requires high > 0
  {
    (Cells * (high - value)) / high
  }

  /** Python's `n * c` for a one-character string `c`: `n` copies, none when
      `n` is zero or negative. */
  function Repeat(c: char, n: int): (s: string)
    ensures |s| == if n < 0 then 0 else n
    ensures forall i :: 0 <= i < |s| ==> s[i] == c
  {
    if n <= 0 then [] else [c] + Repeat(c, n - 1)
  }

  /** The bar part of `__str__` (the percentage after it is not modelled);
      None when `high` is zero, where the division raises ZeroDivisionError. */
  function BarText(high: nat, value: nat): (bar: Option<string>)
    ensures bar.Some? <==> high > 0
    ensures bar.Some? ==>
      var f := FilledCount(high, value);
      var b := if BlankCount(high, value) < 0 then 0 else BlankCount(high, value);
      && |bar.value| == f + b + 2
      && bar.value[0] == '|' && bar.value[|bar.value| - 1] == '|'
      && (forall i :: 1 <= i <= f ==> bar.value[i] == '█')
      && (forall i :: f < i <= f + b ==> bar.value[i] == ' ')
  {
    if high == 0 then None
    else Some("|" + Repeat('█', FilledCount(high, value)) + Repeat(' ', BlankCount(high, value)) + "|")
  }

  class ProgressBar {
    var high: nat
    var value: nat
    var size: int

    /** `__init__`: a bar for `high` steps, starting at zero. */
    constructor (high: nat, size: int := 50)
      ensures this.high == high && this.value == 0 && this.size == size
    {
      this.high := high;
      this.value := 0;
      this.size := size;
    }

    /** `increment`: one more step done; returns the line it redraws (None when
        rendering raises, which happens after the counter has moved). */
    method Increment() returns (line: Option<string>)
      modifies this
      ensures value == old(value) + 1
      ensures high == old(high) && size == old(size)
      ensures line == BarText(high, value)
    {
      value := value + 1;
      line := BarText(high, value);
    }
  }

  /** `a * d < b * d` with a positive `d` gives `a < b`. */
  lemma MulCancelLess(a: int, b: int, d: int)
    requires d > 0 && a * d < b * d
    ensures a < b
  {
    assert (b - a) * d == b * d - a * d > 0;
  }

  /** Floor division is determined by any quotient and remainder in range. */
  lemma DivUnique(a: int, d: int, q: int, r: int)
    requires d > 0 && 0 <= r < d && a == q * d + r
    ensures a / d == q
  {
    var q0, r0 := a / d, a % d;
    assert a == q0 * d + r0;
    MulCancelLess(q0, q + 1, d);
    MulCancelLess(q, q0 + 1, d);
  }

  /** With `0 <= value <= high` the two counts add up to 20 when `high`
      divides `20 * value` and to 19 otherwise. */
  lemma CellTotal(high: nat, value: nat)
    requires 0 < high && value <= high
    ensures FilledCount(high, value) + BlankCount(high, value)
            == if (Cells * value) % high == 0 then Cells else Cells - 1
  {
    var q, r := (Cells * value) / high, (Cells * value) % high;
    assert Cells * value == q * high + r;
    var rest := Cells * (high - value);
    assert rest == Cells * high - Cells * value;
    if r == 0 {
      assert rest == (Cells - q) * high + 0;
      DivUnique(rest, high, Cells - q, 0);
    } else {
      assert rest == (Cells - q - 1) * high + (high - r);
      DivUnique(rest, high, Cells - q - 1, high - r);
    }
  }

  /** The bar is 19 or 20 cells wide for every `0 <= value <= high`. */
  lemma CellTotalBounds(high: nat, value: nat)
    requires 0 < high && value <= high
    ensures Cells - 1 <= FilledCount(high, value) + BlankCount(high, value) <= Cells
  {
    CellTotal(high, value);
  }

  /** All blank at the start. */
  lemma EmptyAtStart(high: nat)
    requires high > 0
    ensures FilledCount(high, 0) == 0 && BlankCount(high, 0) == Cells
  {
  }

  /** All filled at the end. */
  lemma FullAtEnd(high: nat)
    requires high > 0
    ensures FilledCount(high, high) == Cells && BlankCount(high, high) == 0
  {
  }

  /** The filled part never shrinks as the counter grows. */
  lemma FilledMonotone(high: nat, v: nat, w: nat)
    requires high > 0 && v <= w
    ensures FilledCount(high, v) <= FilledCount(high, w)
  {
    var q, q' := (Cells * v) / high, (Cells * w) / high;
    assert q * high <= Cells * v <= Cells * w;
    assert Cells * w < (q' + 1) * high;
    MulCancelLess(q, q' + 1, high);
  }

  /** The bar is completely filled exactly when the counter has reached `high`. */
  lemma FullIff(high: nat, value: nat)
    requires 0 < high && value <= high
    ensures FilledCount(high, value) == Cells <==> value == high
  {
  }
}
