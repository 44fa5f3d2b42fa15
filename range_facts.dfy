/**
 * What `each` yields for a positive step, written as a progression over the
 * lattice `lower + k * step`, and what `first`, `last`, `size`, `[]` and
 * `include?` say about it.
 */
module RangeFacts {
  import opened Wrappers
  import opened Faults
  import opened Ranges
  import opened Arith

  // ---------------------------------------------------------------------
  // The lattice of a range with a positive step

  /** The `k`-th lattice point from `lower`. */
  function Pt(r: TidyRange, k: int): int {
    r.lower + k * r.step
  }

  /** The index of the last lattice point at or below `upper` (negative when `upper < lower`). */
  function Top(r: TidyRange): int
    requires r.step > 0
  {
    (r.upper - r.lower) / r.step
  }

  /** The first index `each` yields: 1 when `lower` is excluded. */
  function KStart(r: TidyRange): int {
    if r.excludeLower then 1 else 0
  }

  /** The last index `each` yields: one before `Top` when that point is an excluded `upper`. */
  function KEnd(r: TidyRange): int
    requires r.step > 0
  {
    Top(r) - (if r.excludeUpper && Pt(r, Top(r)) == r.upper then 1 else 0)
  }

  function MaxInt(a: int, b: int): int {
    if a < b then b else a
  }

  lemma PtNext(r: TidyRange, k: int)
    ensures Pt(r, k + 1) == Pt(r, k) + r.step
  {
    assert (k + 1) * r.step == k * r.step + r.step;
  }

  /** Lattice points are ordered as their indices. */
  lemma PtLess(r: TidyRange, a: int, b: int)
    requires r.step > 0
    ensures Pt(r, a) < Pt(r, b) <==> a < b
  {
    assert Pt(r, b) - Pt(r, a) == (b - a) * r.step;
    if a < b {
      MulAtLeast(b - a, r.step);
    } else if a > b {
      MulAtLeast(a - b, r.step);
      assert (b - a) * r.step == -((a - b) * r.step);
    }
  }

  /** For a positive divisor Ruby's and Dafny's quotients agree. */
  lemma FloorDivPositive(a: int, b: int)
    requires b > 0
    ensures FloorDiv(a, b) == a / b
  {
  }

  /** The lattice point at `Top` is the last one at or below `upper`. */
  lemma BelowUpper(r: TidyRange, k: int)
    requires r.step > 0
    ensures Pt(r, k) <= r.upper <==> k <= Top(r)
  {
    var d := r.upper - r.lower;
    var q := Top(r);
    assert d == r.step * q + d % r.step;
    assert Pt(r, q) <= r.upper < Pt(r, q + 1) by {
      assert q * r.step == r.step * q;
      PtNext(r, q);
    }
    if k <= q {
      if k < q { PtLess(r, k, q); }
    } else {
      if k > q + 1 { PtLess(r, q + 1, k); }
    }
  }

  /** `last` (both versions) start from the lattice point at `Top`. */
  lemma LastStartsAtTop(r: TidyRange)
    requires r.step > 0
    ensures r.upper - FloorMod(r.upper - r.lower, r.step) == Pt(r, Top(r))
  {
    var d := r.upper - r.lower;
    assert d == r.step * (d / r.step) + d % r.step;
    assert Top(r) * r.step == r.step * (d / r.step);
  }

  /** Which lattice points between `lower` and `upper` are valid outer bounds: exactly the indices from `KStart` to `KEnd`. */
  lemma ValidIndices(r: TidyRange, k: int)
    requires r.step > 0 && 0 <= k <= Top(r)
    ensures r.ValidOuterBound(Pt(r, k)) <==> KStart(r) <= k <= KEnd(r)
  {
    assert Pt(r, 0) == r.lower;
    if Pt(r, k) == r.lower && k != 0 {
      if k < 0 { PtLess(r, k, 0); } else { PtLess(r, 0, k); }
    }
    if Pt(r, k) == r.upper && k != Top(r) {
      BelowUpper(r, Top(r));
      PtLess(r, k, Top(r));
    }
  }

  /** One pass of the loop of `each` at the `k`-th lattice point. */
  lemma WalkAt(r: TidyRange, k: int)
    requires r.step > 0
    ensures Walk(r, Pt(r, k)) ==
      if k > Top(r) then []
      else (if r.ValidOuterBound(Pt(r, k)) then [Pt(r, k)] else []) + Walk(r, Pt(r, k + 1))
  {
    BelowUpper(r, k);
    PtNext(r, k);
  }

  /**
   * From the `k`-th lattice point the loop yields the points from index
   * `max(k, KStart)` up to `KEnd`, one step apart.
   */
  lemma {:induction false} WalkShape(r: TidyRange, k: int)
    requires r.step > 0 && k >= 0
    ensures var w := Walk(r, Pt(r, k)); var from := MaxInt(k, KStart(r));
      && |w| == MaxInt(0, KEnd(r) - from + 1)
      && forall j :: 0 <= j < |w| ==> w[j] == Pt(r, from + j)
    decreases if k > Top(r) then 0 else Top(r) - k + 1
  {
    WalkAt(r, k);
    if k <= Top(r) {
      WalkShape(r, k + 1);
      ValidIndices(r, k);
      if k == Top(r) {
        WalkAt(r, k + 1);
      }
    }
  }

  // ---------------------------------------------------------------------
  // What `each` yields

  /** `first` is the lattice point at `KStart`. */
  lemma FirstAtKStart(r: TidyRange)
    ensures r.First() == Pt(r, KStart(r))
  {
    assert 1 * r.step == r.step;
  }

  /** For a positive step, `each` yields as many points as there are indices from `KStart` to `KEnd`. */
  lemma ElementsCount(r: TidyRange)
    requires r.step > 0
    ensures |Elements(r)| == MaxInt(0, KEnd(r) - KStart(r) + 1)
  {
    assert Pt(r, 0) == r.lower;
    WalkShape(r, 0);
  }

  /** For a positive step, `each` yields `first`, `first + step`, `first + 2 * step`, … */
  lemma ElementsAreProgression(r: TidyRange)
    requires r.step > 0
    ensures var e := Elements(r); forall j :: 0 <= j < |e| ==> e[j] == r.First() + j * r.step
  {
    assert Pt(r, 0) == r.lower;
    WalkShape(r, 0);
    FirstAtKStart(r);
    var e := Elements(r);
    forall j | 0 <= j < |e|
      ensures e[j] == r.First() + j * r.step
    {
      assert (KStart(r) + j) * r.step == KStart(r) * r.step + j * r.step;
    }
  }

  /** For a positive step, every point `each` yields is one step after the previous one. */
  lemma ElementsAscend(r: TidyRange)
    requires r.step > 0
    ensures var e := Elements(r); forall j :: 0 <= j < |e| - 1 ==> e[j + 1] == e[j] + r.step
  {
    ElementsAreProgression(r);
    var e := Elements(r);
    forall j | 0 <= j < |e| - 1
      ensures e[j + 1] == e[j] + r.step
    {
      assert (j + 1) * r.step == j * r.step + r.step;
    }
  }

  /** The corrected `last`: the lattice point at `KEnd`, or one step before `first` when that is below it. */
  lemma LastCorrectedAtKEnd(r: TidyRange)
    requires r.step > 0
    ensures LastCorrected(r) == Ok(if KEnd(r) < KStart(r) then r.First() - r.step else Pt(r, KEnd(r)))
  {
    LastStartsAtTop(r);
    FirstAtKStart(r);
    var ks, ke := KStart(r), KEnd(r);
    assert Pt(r, ke) == (if r.excludeUpper && Pt(r, Top(r)) == r.upper then Pt(r, Top(r)) - r.step else Pt(r, Top(r))) by {
      PtNext(r, Top(r) - 1);
    }
    if ke < ks {
      PtLess(r, ke, ks);
    } else if ke > ks {
      PtLess(r, ks, ke);
    }
  }

  /** Dividing an exact multiple of a positive divisor gives its factor back. */
  lemma FloorDivExact(g: int, s: int)
    requires s > 0
    ensures FloorDiv(g * s, s) == g
  {
    MulDiv(g, s);
    FloorDivPositive(g * s, s);
  }

  /** The corrected `last` is `gap` steps after `first`, where `gap` is one less than the count. */
  lemma LastCorrectedGap(r: TidyRange)
    requires r.step > 0
    ensures LastCorrected(r).Ok?
    ensures var gap := if KEnd(r) < KStart(r) then -1 else KEnd(r) - KStart(r);
      LastCorrected(r).value - r.First() == gap * r.step
  {
    LastCorrectedAtKEnd(r);
    FirstAtKStart(r);
    var ks, ke := KStart(r), KEnd(r);
    assert Pt(r, ke) - Pt(r, ks) == (ke - ks) * r.step;
  }

  /** For a positive step, the corrected `size` is the number of points `each` yields. */
  lemma SizeCorrectedCountsElements(r: TidyRange)
    requires r.step > 0
    ensures SizeCorrected(r) == Ok(|Elements(r)|)
  {
    ElementsCount(r);
    LastCorrectedGap(r);
    var gap := if KEnd(r) < KStart(r) then -1 else KEnd(r) - KStart(r);
    FloorDivExact(gap, r.step);
  }

  /** For a positive step, `first` is the first point `each` yields and the corrected `last` the last one. */
  lemma EndsAreFirstAndLastCorrected(r: TidyRange)
    requires r.step > 0 && Elements(r) != []
    ensures Elements(r)[0] == r.First()
    ensures LastCorrected(r) == Ok(Elements(r)[|Elements(r)| - 1])
  {
    ElementsCount(r);
    ElementsAreProgression(r);
    LastCorrectedAtKEnd(r);
    FirstAtKStart(r);
    var e := Elements(r);
    var ks, ke := KStart(r), KEnd(r);
    assert e[|e| - 1] == Pt(r, ke) by {
      assert r.First() + (|e| - 1) * r.step == r.lower + ks * r.step + (ke - ks) * r.step;
      assert ks * r.step + (ke - ks) * r.step == ke * r.step;
    }
  }
}
