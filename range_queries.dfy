/**
 * Membership, indexing and the endpoint queries of `TidyRange`, related to
 * what `each` yields; negative steps are reduced to positive ones by negating
 * every number of the range.
 */
module RangeQueries {
  import opened Wrappers
  import opened Faults
  import opened Ranges
  import opened RangeFacts
  import opened Arith

  // ---------------------------------------------------------------------
  // Membership for a positive step

  /** For a positive step, the `j`-th point `each` yields is the lattice point at `KStart + j`. */
  lemma ElementsOnLattice(r: TidyRange)
    requires r.step > 0
    ensures var e := Elements(r);
      && |e| == MaxInt(0, KEnd(r) - KStart(r) + 1)
      && forall j :: 0 <= j < |e| ==> e[j] == Pt(r, KStart(r) + j)
  {
    assert Pt(r, 0) == r.lower;
    WalkShape(r, 0);
  }

  /** Every lattice point from `KStart` to `KEnd` passes the corrected `include?`. */
  lemma LatticeIncluded(r: TidyRange, k: int)
    requires r.step > 0 && KStart(r) <= k <= KEnd(r)
    ensures IncludeCorrected(r, Pt(r, k)) == Ok(true)
  {
    ValidIndices(r, k);
    BelowUpper(r, k);
    assert Pt(r, 0) == r.lower;
    if k > 0 {
      PtLess(r, 0, k);
    }
    MulMod(k, r.step);
    assert Pt(r, k) - r.lower == k * r.step;
  }

  /** A number the corrected `include?` accepts is a lattice point from `KStart` to `KEnd`. */
  lemma IncludedOnLattice(r: TidyRange, x: int)
    requires r.step > 0 && IncludeCorrected(r, x) == Ok(true)
    ensures var k := (x - r.lower) / r.step; KStart(r) <= k <= KEnd(r) && Pt(r, k) == x
  {
    var d := x - r.lower;
    var k := d / r.step;
    assert d % r.step == 0;
    assert d == r.step * k;
    assert Pt(r, k) == x by {
      assert k * r.step == r.step * k;
    }
    assert Pt(r, 0) == r.lower;
    if k < 0 {
      PtLess(r, k, 0);
    }
    BelowUpper(r, k);
    ValidIndices(r, k);
  }

  /** For a positive step, `each` yields exactly the numbers the corrected `include?` accepts. */
  lemma ElementsAreIncluded(r: TidyRange, x: int)
    requires r.step > 0
    ensures x in Elements(r) <==> IncludeCorrected(r, x) == Ok(true)
  {
    ElementsOnLattice(r);
    var e := Elements(r);
    if x in e {
      var j :| 0 <= j < |e| && e[j] == x;
      LatticeIncluded(r, KStart(r) + j);
    }
    if IncludeCorrected(r, x) == Ok(true) {
      IncludedOnLattice(r, x);
      var k := (x - r.lower) / r.step;
      assert e[k - KStart(r)] == x;
    }
  }

  /** For a positive step, `include?(x)` holds exactly when `each` yields `x`. */
  lemma IncludeIffElement(r: TidyRange, x: int)
    requires r.step > 0
    ensures Include(r, x) == Ok(x in Elements(r))
  {
    ElementsAreIncluded(r, x);
  }

  /** `include?` and every other query divide by the step: a zero step raises, and such a range yields nothing. */
  lemma ZeroStepRaises(r: TidyRange, x: int, n: int)
    requires r.step == 0
    ensures Include(r, x) == Err(ZeroDivision) && Index(r, n) == Err(ZeroDivision)
    ensures Last(r) == Err(ZeroDivision) && Size(r) == Err(ZeroDivision)
    ensures Finite(r) ==> Elements(r) == []
  {
    if n < 0 {
      assert r.Reverse().step == 0;
    }
  }

  // ---------------------------------------------------------------------
  // Negative steps

  /** The range with every number negated: it walks the mirror image with a positive step. */
  function Neg(r: TidyRange): (m: TidyRange)
    ensures m.step == -r.step && m.lower == -r.lower && m.upper == -r.upper
    ensures m.excludeLower == r.excludeLower && m.excludeUpper == r.excludeUpper
  {
    TidyRange(-r.lower, -r.upper, -r.step, r.excludeLower, r.excludeUpper)
  }

  function Negs(xs: seq<int>): (ys: seq<int>)
    ensures |ys| == |xs|
  {
    seq(|xs|, j requires 0 <= j < |xs| => -xs[j])
  }

  lemma NegsMember(xs: seq<int>, x: int)
    ensures x in xs <==> -x in Negs(xs)
  {
    if x in xs {
      var j :| 0 <= j < |xs| && xs[j] == x;
      assert Negs(xs)[j] == -x;
    }
  }

  lemma NegsCons(x: int, xs: seq<int>)
    ensures Negs([x] + xs) == [-x] + Negs(xs)
  {
  }

  /** The mirrored loop yields the negated points. */
  lemma {:induction false} NegWalk(r: TidyRange, i: int)
    requires r.step < 0
    ensures Walk(Neg(r), -i) == Negs(Walk(r, i))
    decreases if i < r.upper then 0 else i - r.upper + 1
  {
    var n := Neg(r);
    assert Cmp(-i, n.upper) == -Cmp(i, r.upper);
    if i >= r.upper {
      assert -i + n.step == -(i + r.step);
      NegWalk(r, i + r.step);
      if r.ValidOuterBound(i) {
        assert n.ValidOuterBound(-i);
        NegsCons(i, Walk(r, i + r.step));
      } else {
        assert !n.ValidOuterBound(-i);
      }
    }
  }

  /** The corrected `include?` is unchanged by mirroring. */
  lemma NegIncluded(r: TidyRange, x: int)
    requires r.step != 0
    ensures IncludeCorrected(Neg(r), -x) == IncludeCorrected(r, x)
  {
    ModZeroNeg(x - r.lower, r.step);
    assert -x - Neg(r).lower == -(x - r.lower);
  }

  /** For any non-zero step, `each` yields exactly the numbers the corrected `include?` accepts. */
  lemma IncludeCorrectedIffElement(r: TidyRange, x: int)
    requires r.step != 0
    ensures IncludeCorrected(r, x) == Ok(x in Elements(r))
  {
    if r.step > 0 {
      ElementsAreIncluded(r, x);
    } else {
      NegWalk(r, r.lower);
      ElementsAreIncluded(Neg(r), -x);
      NegsMember(Elements(r), x);
      NegIncluded(r, x);
    }
  }

  /** `last` in the direction of the step: a negative step reads the corrected `last` off the mirrored range. */
  function LastDirected(r: TidyRange): Result<int, Fault> {
    if r.step >= 0 then LastCorrected(r)
    else
      match LastCorrected(Neg(r))
      case Err(f) => Err(f)
      case Ok(l) => Ok(-l)
  }

  /** `size` in the direction of the step: a negative step counts the mirrored range. */
  function SizeDirected(r: TidyRange): Result<int, Fault> {
    if r.step >= 0 then SizeCorrected(r) else SizeCorrected(Neg(r))
  }

  /** For any non-zero step, the direction-aware `size` counts the points `each` yields and `last` is the last of them. */
  lemma DirectedEnds(r: TidyRange)
    requires r.step != 0
    ensures SizeDirected(r) == Ok(|Elements(r)|)
    ensures Elements(r) != [] ==> LastDirected(r) == Ok(Elements(r)[|Elements(r)| - 1])
  {
    if r.step > 0 {
      SizeCorrectedCountsElements(r);
      if Elements(r) != [] {
        EndsAreFirstAndLastCorrected(r);
      }
    } else {
      var n := Neg(r);
      NegWalk(r, r.lower);
      assert Elements(n) == Negs(Elements(r));
      SizeCorrectedCountsElements(n);
      if Elements(r) != [] {
        EndsAreFirstAndLastCorrected(n);
        var e := Elements(r);
        assert Elements(n)[|e| - 1] == -e[|e| - 1];
      }
    }
  }

  // ---------------------------------------------------------------------
  // Indexing

  /** For `n >= 0` and a positive step, `self[n]` is the `n`-th lattice point when `each` yields it, and raises otherwise. */
  lemma IndexIsLatticePoint(r: TidyRange, n: int)
    requires r.step > 0 && n >= 0
    ensures Index(r, n) == if Pt(r, n) in Elements(r) then Ok(Pt(r, n)) else Err(OutOfBounds)
  {
    assert r.step * n + r.lower == Pt(r, n);
    IncludeIffElement(r, Pt(r, n));
  }

  /** With `lower` kept and a positive step, `self[n]` is the `n`-th point `each` yields. */
  lemma IndexIsElement(r: TidyRange, n: int)
    requires r.step > 0 && !r.excludeLower && 0 <= n < |Elements(r)|
    ensures Index(r, n) == Ok(Elements(r)[n])
  {
    ElementsOnLattice(r);
    IndexIsLatticePoint(r, n);
  }

  /** With `lower` kept and a positive step, `self[e]` for `e` in `lo ... hi` are the points `each` yields there. */
  lemma {:induction false} IndexAllIsSlice(r: TidyRange, lo: int, hi: int)
    requires r.step > 0 && !r.excludeLower && 0 <= lo <= hi <= |Elements(r)|
    ensures IndexAll(r, lo, hi) == Ok(Elements(r)[lo..hi])
    decreases hi - lo
  {
    if lo < hi {
      IndexIsElement(r, lo);
      IndexAllIsSlice(r, lo + 1, hi);
      assert IndexAll(r, lo, hi) == Ok([Elements(r)[lo]] + Elements(r)[lo + 1..hi]);
      assert Elements(r)[lo..hi] == [Elements(r)[lo]] + Elements(r)[lo + 1..hi];
    } else {
      assert Elements(r)[lo..hi] == [];
    }
  }

  /** With `lower` kept and a positive step, `first(n)` is the first `n` points `each` yields. */
  lemma FirstNIsPrefix(r: TidyRange, n: int)
    requires r.step > 0 && !r.excludeLower && 0 <= n <= |Elements(r)|
    ensures FirstN(r, n) == Ok(Elements(r)[..n])
  {
    IndexAllIsSlice(r, 0, n);
  }

  /** `first(n)` for `n >= 1` starts at `self[0] == lower`, which an excluded `lower` makes raise. */
  lemma FirstNWithExcludedLowerRaises(r: TidyRange, n: int)
    requires r.step != 0 && r.excludeLower && n >= 1
    ensures FirstN(r, n) == Err(OutOfBounds)
  {
    assert Index(r, 0) == Err(OutOfBounds) by {
      assert r.step * 0 + r.lower == r.lower;
    }
  }

  /** When `upper` is kept, `last` and `size` agree with their corrected versions. */
  lemma KeptUpperAgrees(r: TidyRange)
    requires !r.excludeUpper
    ensures Last(r) == LastCorrected(r) && Size(r) == SizeCorrected(r)
  {
  }

  /** `last(n)` reads the `n` indices before `size`. */
  lemma LastNBeforeSize(r: TidyRange, n: int, size: int)
    requires n != 0 && Size(r) == Ok(size)
    ensures LastN(r, n) == IndexAll(r, size - n, size)
  {
  }

  /** With both endpoints kept and a positive step, `last(n)` is the last `n` points `each` yields. */
  lemma LastNIsSuffix(r: TidyRange, n: int)
    requires r.step > 0 && !r.excludeLower && !r.excludeUpper && 0 < n <= |Elements(r)|
    ensures LastN(r, n) == Ok(Elements(r)[|Elements(r)| - n..])
  {
    var e := Elements(r);
    assert Size(r) == Ok(|e|) by {
      SizeCorrectedCountsElements(r);
      KeptUpperAgrees(r);
    }
    LastNBeforeSize(r, n, |e|);
    IndexAllIsSlice(r, |e| - n, |e|);
    assert e[|e| - n..|e|] == e[|e| - n..];
  }

  /** With `upper` kept and a positive step, `min` and `max` are the first and last points `each` yields. */
  lemma MinMaxAreEnds(r: TidyRange)
    requires r.step > 0 && !r.excludeUpper && Elements(r) != []
    ensures Min(r) == Ok(Elements(r)[0])
    ensures Max(r) == Ok(Elements(r)[|Elements(r)| - 1])
  {
    EndsAreFirstAndLastCorrected(r);
    KeptUpperAgrees(r);
  }

  /** Reversing twice restores every field, and reversal keeps the same endpoints excluded. */
  lemma ReverseTwice(r: TidyRange, i: int)
    ensures r.Reverse().Reverse() == r
    ensures r.Reverse().ValidOuterBound(i) == r.ValidOuterBound(i)
  {
  }

  /** A negative index reads the reversed range, whose `lower` exceeds its `upper` when the range ascends: `include?` then rejects every point. */
  lemma NegativeIndexRaises(r: TidyRange, n: int)
    requires r.step > 0 && r.lower < r.upper && n < 0
    ensures Index(r, n) == Err(OutOfBounds)
  {
    var rv := r.Reverse();
    var res := rv.step * (-n - 1) + rv.lower;
    assert Include(rv, res) == Ok(false);
  }
}

/** Concrete ranges showing where `last`, `size` and `include?` as written part from `each`. */
module RangeExamples {
  import opened Wrappers
  import opened Faults
  import opened Ranges
  import opened RangeQueries

  /** `[1, 10[` by 2: the excluded `upper` is off the lattice, yet `last` steps back from 9 to 7 and `size` counts 4 of the 5 points. */
  lemma LastStepsBackFromKeptPoint()
    ensures Elements(TidyRange(1, 10, 2, false, true)) == [1, 3, 5, 7, 9]
    ensures Last(TidyRange(1, 10, 2, false, true)) == Ok(7)
    ensures Size(TidyRange(1, 10, 2, false, true)) == Ok(4)
    ensures LastCorrected(TidyRange(1, 10, 2, false, true)) == Ok(9)
    ensures SizeCorrected(TidyRange(1, 10, 2, false, true)) == Ok(5)
  {
    var r := TidyRange(1, 10, 2, false, true);
    assert Walk(r, 11) == [];
    assert Walk(r, 9) == [9];
    assert Walk(r, 7) == [7, 9];
    assert Walk(r, 5) == [5, 7, 9];
    assert Walk(r, 3) == [3, 5, 7, 9];
    assert FloorMod(9, 2) == 1;
    assert FloorDiv(6, 2) == 3;
    assert FloorDiv(8, 2) == 4;
  }

  /** From 3 down to 1: `each` yields 3, 2, 1, but `include?` tests `lower <= n <= upper`, which no number meets. */
  lemma DescendingIncludesNothing()
    ensures Elements(TidyRange(3, 1, -1, false, false)) == [3, 2, 1]
    ensures Include(TidyRange(3, 1, -1, false, false), 3) == Ok(false)
    ensures IncludeCorrected(TidyRange(3, 1, -1, false, false), 3) == Ok(true)
  {
    var r := TidyRange(3, 1, -1, false, false);
    assert Walk(r, 0) == [];
    assert Walk(r, 1) == [1];
    assert Walk(r, 2) == [2, 1];
  }

  /** From 3 down to 1: `last` and `min` are 4, a number `each` never yields, and `size` is 0 for three points. */
  lemma DescendingLastOvershoots()
    ensures Elements(TidyRange(3, 1, -1, false, false)) == [3, 2, 1]
    ensures Last(TidyRange(3, 1, -1, false, false)) == Ok(4)
    ensures Size(TidyRange(3, 1, -1, false, false)) == Ok(0)
    ensures Min(TidyRange(3, 1, -1, false, false)) == Ok(4)
    ensures LastDirected(TidyRange(3, 1, -1, false, false)) == Ok(1)
    ensures SizeDirected(TidyRange(3, 1, -1, false, false)) == Ok(3)
  {
    var r := TidyRange(3, 1, -1, false, false);
    assert Walk(r, 0) == [];
    assert Walk(r, 1) == [1];
    assert Walk(r, 2) == [2, 1];
    assert FloorMod(-2, -1) == 0;
    assert FloorDiv(1, -1) == -1;
    assert FloorMod(2, 1) == 0;
    assert FloorDiv(2, 1) == 2;
  }

  /** `[1, 5]`: the last point is 5, yet `self[-1]` raises because the reversed range includes nothing. */
  lemma LastByNegativeIndexRaises()
    ensures Elements(TidyRange(1, 5, 1, false, false))[4] == 5
    ensures Index(TidyRange(1, 5, 1, false, false), -1) == Err(OutOfBounds)
  {
    var r := TidyRange(1, 5, 1, false, false);
    ElementsOnLattice(r);
    NegativeIndexRaises(r, -1);
  }
}
