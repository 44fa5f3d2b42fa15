/**
 * `TidyRange`: an integer range from `lower` towards `upper` by `step`,
 * either endpoint of which may be excluded, with Ruby's floored `%` and `/`
 * written out (Dafny's are Euclidean). Infinite endpoints are not modelled.
 */
module Ranges {
  import opened Wrappers
  import opened Faults

  // ---------------------------------------------------------------------
  // Ruby's integer division

  /** Ruby's `a % b`: the remainder takes the sign of the divisor. */
  function FloorMod(a: int, b: int): (r: int)
    requires b != 0
    ensures b > 0 ==> 0 <= r < b
    ensures b < 0 ==> b < r <= 0
    ensures r == 0 <==> a % b == 0
  {
    var e := a % b;
    if b > 0 || e == 0 then e else e + b
  }

  /** Ruby's `a / b`: the quotient rounded towards negative infinity, so that it recombines with `FloorMod`. */
  function FloorDiv(a: int, b: int): (q: int)
    requires b != 0
    ensures b * q + FloorMod(a, b) == a
  {
    var e := a % b;
    assert b * (a / b) + e == a;
    if b > 0 || e == 0 then a / b
    else
      assert b * (a / b - 1) == b * (a / b) - b;
      a / b - 1
  }

  /** `a <=> b` on integers. */
  function Cmp(a: int, b: int): (c: int)
    ensures c == -1 || c == 0 || c == 1
    ensures c == 0 <==> a == b
    ensures c == 1 <==> a > b
  {
    if a < b then -1 else if a == b then 0 else 1
  }

  // ---------------------------------------------------------------------
  // The range

  /**
   * `TidyRange.new(lower, upper, step = 1, exclude_lower = false,
   * exclude_upper = false)`.
   */
  datatype TidyRange = TidyRange(lower: int, upper: int, step: int, excludeLower: bool, excludeUpper: bool)
  {
    /** `@sign`: `step <=> 0`. */
    function Sign(): int {
      Cmp(step, 0)
    }

    /** `valid_outer_bound?(i)`: `i` is not an endpoint whose exclusion flag is set. */
    predicate ValidOuterBound(i: int) {
      !(excludeLower && lower == i) && !(excludeUpper && upper == i)
    }

    /** `reverse`: the endpoints and their flags swap and the step is negated. */
    function Reverse(): (rv: TidyRange)
      ensures rv.lower == upper && rv.upper == lower && rv.step == -step
      ensures rv.excludeLower == excludeUpper && rv.excludeUpper == excludeLower
    {
      TidyRange(upper, lower, -step, excludeUpper, excludeLower)
    }

    /** `first` with no argument: `lower`, or the point after it when it is excluded. */
    function First(): int {
      if excludeLower then lower + step else lower
    }
  }

  /** `each` terminates exactly when the step is non-zero or the range starts at `upper`. */
  predicate Finite(r: TidyRange) {
    r.step != 0 || r.lower == r.upper
  }

  /** The loop of `each` from the cursor `i`: until `i <=> upper` is the sign of the step, yield the valid points. */
  function Walk(r: TidyRange, i: int): seq<int>
    requires r.step != 0 || i == r.upper
    decreases if r.step > 0 then r.upper - i else i - r.upper
  {
    if Cmp(i, r.upper) == r.Sign() then []
    else (if r.ValidOuterBound(i) then [i] else []) + Walk(r, i + r.step)
  }

  /** What `each` yields. */
  function Elements(r: TidyRange): seq<int>
    requires Finite(r)
  {
    Walk(r, r.lower)
  }

  /** `each`: steps a cursor from `lower` and collects the points it yields. */
  method Each(r: TidyRange) returns (ys: seq<int>)
    requires Finite(r)
    ensures ys == Elements(r)
  {
    ys := [];
    var i := r.lower;
    while Cmp(i, r.upper) != r.Sign()
      invariant r.step != 0 || i == r.upper
      invariant Elements(r) == ys + Walk(r, i)
      decreases if r.step > 0 then r.upper - i else i - r.upper
    {
      if r.ValidOuterBound(i) {
        ys := ys + [i];
      }
      i := i + r.step;
    }
  }

  /** `include?(n)`: on the lattice of `lower`, between `lower` and `upper`, and not an excluded endpoint. */
  function Include(r: TidyRange, n: int): Result<bool, Fault> {
    if r.step == 0 then Err(ZeroDivision)
    else Ok(FloorMod(n - r.lower, r.step) == 0 && n >= r.lower && n <= r.upper && r.ValidOuterBound(n))
  }

  /** `self[n]`: `lower + step * n` when that is included; a negative `n` indexes the reversed range from its start. */
  function Index(r: TidyRange, n: int): Result<int, Fault>
    decreases if n < 0 then 1 else 0
  {
    if n < 0 then Index(r.Reverse(), -n - 1)
    else
      var res := r.step * n + r.lower;
      match Include(r, res)
      case Err(f) => Err(f)
      case Ok(inside) => if inside then Ok(res) else Err(OutOfBounds)
  }

  /** `self[e]` for `e` from `lo` up to `hi` (exclusive), stopping at the first fault. */
  function IndexAll(r: TidyRange, lo: int, hi: int): Result<seq<int>, Fault>
    decreases hi - lo
  {
    if lo >= hi then Ok([])
    else
      match Index(r, lo)
      case Err(f) => Err(f)
      case Ok(x) =>
        match IndexAll(r, lo + 1, hi)
        case Err(f) => Err(f)
        case Ok(xs) => Ok([x] + xs)
  }

  /** `first(n)`: the points at indices `0 ... n`. */
  function FirstN(r: TidyRange, n: int): Result<seq<int>, Fault> {
    if n == 0 then Ok([]) else IndexAll(r, 0, n)
  }

  /** `last` with no argument, as written: the lattice point at or below `upper`, one step back when `upper` is excluded, and one step before `first` when that falls below it. */
  function Last(r: TidyRange): Result<int, Fault> {
    if r.step == 0 then Err(ZeroDivision)
    else
      var point := r.upper - FloorMod(r.upper - r.lower, r.step);
      var point' := if r.excludeUpper then point - r.step else point;
      Ok(if point' < r.First() then r.First() - r.step else point')
  }

  /** `size`: `(last - first) / step + 1`. */
  function Size(r: TidyRange): Result<int, Fault> {
    match Last(r)
    case Err(f) => Err(f)
    case Ok(l) => Ok(FloorDiv(l - r.First(), r.step) + 1)
  }

  /** `last(n)`: the points at indices `size - n ... size`. */
  function LastN(r: TidyRange, n: int): Result<seq<int>, Fault> {
    if n == 0 then Ok([])
    else
      match Size(r)
      case Err(f) => Err(f)
      case Ok(size) => IndexAll(r, size - n, size)
  }

  /** `min`: `last` for a negative step, else `first`. */
  function Min(r: TidyRange): Result<int, Fault> {
    if r.step < 0 then Last(r) else Ok(r.First())
  }

  /** `max`: `first` for a negative step, else `last`. */
  function Max(r: TidyRange): Result<int, Fault> {
    if r.step < 0 then Ok(r.First()) else Last(r)
  }

  // ---------------------------------------------------------------------
  // Corrected definitions (see the findings)

  /** `last` stepping back from `upper` only when `upper` itself is the excluded lattice point. */
  function LastCorrected(r: TidyRange): Result<int, Fault> {
    if r.step == 0 then Err(ZeroDivision)
    else
      var point := r.upper - FloorMod(r.upper - r.lower, r.step);
      var point' := if r.excludeUpper && point == r.upper then point - r.step else point;
      Ok(if point' < r.First() then r.First() - r.step else point')
  }

  /** `size` over the corrected `last`. */
  function SizeCorrected(r: TidyRange): Result<int, Fault> {
    match LastCorrected(r)
    case Err(f) => Err(f)
    case Ok(l) => Ok(FloorDiv(l - r.First(), r.step) + 1)
  }

  /** `include?` testing the bounds in the direction of the step. */
  function IncludeCorrected(r: TidyRange, n: int): Result<bool, Fault> {
    if r.step == 0 then Err(ZeroDivision)
    else
      var between := if r.step > 0 then r.lower <= n <= r.upper else r.upper <= n <= r.lower;
      Ok(FloorMod(n - r.lower, r.step) == 0 && between && r.ValidOuterBound(n))
  }
}
