/**
 * The finite sequence helpers: `Enumerable#tile`, `Enumerable#skip` and the
 * round-robin `SplicedSequence#each`, over finite sequences.
 */
module Enumerables {
  import opened Wrappers
  import opened Faults
  import opened Arith

  // ---------------------------------------------------------------------
  // tile

  /** `x` repeated `n` times. */
  function Repeat<T>(x: T, n: nat): (r: seq<T>)
    ensures |r| == n
  {
    if n == 0 then [] else [x] + Repeat(x, n - 1)
  }

  lemma {:induction false} RepeatAt<T>(x: T, n: nat, i: int)
    requires 0 <= i < n
    ensures Repeat(x, n)[i] == x
  {
    if i > 0 {
      RepeatAt(x, n - 1, i - 1);
    }
  }

  /** `tile(n)`: every element `n` times in a row (`n.times` yields nothing for `n <= 0`). */
  function Tile<T>(xs: seq<T>, n: int): seq<T> {
    if xs == [] then [] else Repeat(xs[0], if n < 0 then 0 else n) + Tile(xs[1..], n)
  }

  /** `tile(n)` has `n` times as many elements. */
  lemma {:induction false} TileLength<T>(xs: seq<T>, n: int)
    ensures |Tile(xs, n)| == |xs| * (if n < 0 then 0 else n)
  {
    if xs != [] {
      TileLength(xs[1..], n);
      var m := if n < 0 then 0 else n;
      assert |xs| * m == m + (|xs| - 1) * m;
    }
  }

  /** Element `j` of the `k`-th run of `tile(n)` is element `k` of the input. */
  lemma {:induction false} TileAt<T>(xs: seq<T>, n: int, k: int, j: int)
    requires 0 <= j < n && 0 <= k < |xs|
    ensures k * n + j < |Tile(xs, n)| && Tile(xs, n)[k * n + j] == xs[k]
  {
    TileLength(xs, n);
    TileLength(xs[1..], n);
    if k == 0 {
      RepeatAt(xs[0], n, j);
    } else {
      TileAt(xs[1..], n, k - 1, j);
      assert k * n + j == n + ((k - 1) * n + j);
    }
  }

  /** The tile of the rest follows the first run. */
  lemma TileDrop<T>(xs: seq<T>, n: int)
    requires n > 0 && xs != []
    ensures Tile(xs, n)[n..] == Tile(xs[1..], n)
  {
    assert Tile(xs, n) == Repeat(xs[0], n) + Tile(xs[1..], n);
  }

  // ---------------------------------------------------------------------
  // skip

  /** `s` without its first `k` elements, or empty when it has fewer. */
  function Drop<T>(s: seq<T>, k: nat): (d: seq<T>)
    ensures |d| == if k < |s| then |s| - k else 0
  {
    if k < |s| then s[k..] else []
  }

  /** The first element, then every `n`-th: positions `0, n, 2n, …` */
  function EveryNth<T>(xs: seq<T>, n: int): seq<T>
    requires n > 0
    decreases |xs|
  {
    if xs == [] then [] else [xs[0]] + EveryNth(Drop(xs, n), n)
  }

  /** What `skip(n)` yields, or `StopIteration` when `n <= 0` leaves the counter's cycle empty. */
  function SkipSpec<T>(xs: seq<T>, n: int): Result<seq<T>, Fault> {
    if n <= 0 then (if xs == [] then Ok([]) else Err(StopIteration))
    else Ok(EveryNth(xs, n))
  }

  /** How many elements the counter reading `count` lets pass before it reads 1 again. */
  function Pending(n: int, count: int): nat
    requires 1 <= count <= n
  {
    if count == 1 then 0 else n + 1 - count
  }

  lemma DropDrop<T>(s: seq<T>, a: nat, b: nat)
    ensures Drop(Drop(s, a), b) == Drop(s, a + b)
  {
    if a + b < |s| {
      assert s[a..][b..] == s[a + b..];
    }
  }

  /** The counter after reading `count`. */
  function NextCount(n: int, count: int): int {
    if count == n then 1 else count + 1
  }

  /** What `skip(n)` still yields from position `i` of `xs` when the counter reads `count`. */
  function Remaining<T>(xs: seq<T>, i: int, n: int, count: int): seq<T>
    requires 0 <= i <= |xs| && 1 <= count <= n
  {
    EveryNth(Drop(xs[i..], Pending(n, count)), n)
  }

  lemma RemainingEnds<T>(xs: seq<T>, n: int, count: int)
    requires 1 <= count <= n
    ensures Remaining(xs, 0, n, 1) == EveryNth(xs, n)
    ensures Remaining(xs, |xs|, n, count) == []
  {
    assert xs[0..] == xs;
  }

  /** One element past the cursor: it is yielded when the counter reads 1, and the rest follows. */
  lemma SkipStep<T>(xs: seq<T>, i: int, n: int, count: int)
    requires 0 <= i < |xs| && 1 <= count <= n
    ensures 1 <= NextCount(n, count) <= n
    ensures (if count == 1 then [xs[i]] else []) + Remaining(xs, i + 1, n, NextCount(n, count))
      == Remaining(xs, i, n, count)
  {
    var rest := xs[i..];
    assert xs[i + 1..] == Drop(rest, 1);
    if count == 1 {
      DropDrop(rest, 1, n - 1);
      assert Drop(rest, 0) == rest;
    } else {
      DropDrop(rest, 1, Pending(n, count) - 1);
    }
  }

  /** The counter run from position `i` with the counter reading `count`: the elements read while it reads 1. */
  function Counted<T>(xs: seq<T>, i: int, n: int, count: int): seq<T>
    requires 0 <= i <= |xs| && 1 <= count <= n
    decreases |xs| - i
  {
    if i == |xs| then []
    else (if count == 1 then [xs[i]] else []) + Counted(xs, i + 1, n, NextCount(n, count))
  }

  /** The counter yields what remains of the positions `0, n, 2n, …` */
  lemma {:induction false} CountedIsRemaining<T>(xs: seq<T>, i: int, n: int, count: int)
    requires 0 <= i <= |xs| && 1 <= count <= n
    ensures Counted(xs, i, n, count) == Remaining(xs, i, n, count)
    decreases |xs| - i
  {
    if i == |xs| {
      RemainingEnds(xs, n, count);
    } else {
      SkipStep(xs, i, n, count);
      CountedIsRemaining(xs, i + 1, n, NextCount(n, count));
    }
  }

  /**
   * `skip(n)`: a counter cycles through `1 .. n`, and an element is yielded
   * when the counter reads 1. For `n <= 0` the cycle is empty, so asking it
   * for a value at the first element raises.
   */
  method Skip<T>(xs: seq<T>, n: int) returns (res: Result<seq<T>, Fault>)
    ensures res == SkipSpec(xs, n)
  {
    if n <= 0 {
      return if xs == [] then Ok([]) else Err(StopIteration);
    }
    var ys: seq<T> := [];
    var count := 1;
    var i := 0;
    while i < |xs|
      invariant 0 <= i <= |xs| && 1 <= count <= n
      invariant ys + Counted(xs, i, n, count) == Counted(xs, 0, n, 1)
    {
      ys := ys + (if count == 1 then [xs[i]] else []);
      count := NextCount(n, count);
      i := i + 1;
    }
    assert ys + [] == ys;
    CountedIsRemaining(xs, 0, n, 1);
    RemainingEnds(xs, n, 1);
    return Ok(ys);
  }

  /** The `k`-th element `skip(n)` keeps exists exactly when position `k * n` does, and is the element there. */
  lemma {:induction false} EveryNthAt<T>(xs: seq<T>, n: int, k: nat)
    requires n > 0
    ensures k < |EveryNth(xs, n)| <==> k * n < |xs|
    ensures k < |EveryNth(xs, n)| ==> EveryNth(xs, n)[k] == xs[k * n]
    decreases |xs|
  {
    if k > 0 {
      var m := k * n;
      MulAtLeast(k, n);
      assert m - n == (k - 1) * n;
      if xs != [] {
        EveryNthAt(Drop(xs, n), n, k - 1);
      }
    }
  }

  /** `skip(n)` for `n >= 1` yields the elements at positions `0, n, 2n, …` and no others. */
  lemma SkipPositions<T>(xs: seq<T>, n: int, k: nat)
    requires n > 0
    ensures SkipSpec(xs, n).Ok?
    ensures k < |SkipSpec(xs, n).value| <==> k * n < |xs|
    ensures k < |SkipSpec(xs, n).value| ==> SkipSpec(xs, n).value[k] == xs[k * n]
  {
    EveryNthAt(xs, n, k);
  }

  /** `skip(n)` undoes `tile(n)`: keeping one element in `n` of every element repeated `n` times gives the input back. */
  lemma {:induction false} SkipUndoesTile<T>(xs: seq<T>, n: int)
    requires n > 0
    ensures SkipSpec(Tile(xs, n), n) == Ok(xs)
    decreases |xs|
  {
    if xs != [] {
      var t := Tile(xs, n);
      assert t[0] == xs[0] && Drop(t, n) == Tile(xs[1..], n) by {
        TileLength(xs, n);
        TileLength(xs[1..], n);
        RepeatAt(xs[0], n, 0);
        TileDrop(xs, n);
      }
      SkipUndoesTile(xs[1..], n);
      assert EveryNth(t, n) == [xs[0]] + xs[1..];
      assert [xs[0]] + xs[1..] == xs;
    }
  }

  // ---------------------------------------------------------------------
  // SplicedSequence

  /** The first element of each live copy, in order. */
  function Heads<T>(copies: seq<seq<T>>): seq<T> {
    if copies == [] then []
    else
      var c := copies[|copies| - 1];
      Heads(copies[..|copies| - 1]) + (if c != [] then [c[0]] else [])
  }

  /** The copies `keep_if` keeps after one pass: the rest of every copy that had an element. */
  function Tails<T>(copies: seq<seq<T>>): seq<seq<T>> {
    if copies == [] then []
    else
      var c := copies[|copies| - 1];
      Tails(copies[..|copies| - 1]) + (if c != [] then [c[1..]] else [])
  }

  /** One more than the elements of each copy, summed: every pass lowers it by the number of copies. */
  function Total<T>(copies: seq<seq<T>>): nat {
    if copies == [] then 0 else Total(copies[..|copies| - 1]) + |copies[|copies| - 1]| + 1
  }

  lemma HeadsSnoc<T>(cs: seq<seq<T>>, c: seq<T>)
    ensures Heads(cs + [c]) == Heads(cs) + (if c != [] then [c[0]] else [])
  {
    assert (cs + [c])[..|cs|] == cs;
  }

  lemma TailsSnoc<T>(cs: seq<seq<T>>, c: seq<T>)
    ensures Tails(cs + [c]) == Tails(cs) + (if c != [] then [c[1..]] else [])
  {
    assert (cs + [c])[..|cs|] == cs;
  }

  lemma TotalSnoc<T>(cs: seq<seq<T>>, c: seq<T>)
    ensures Total(cs + [c]) == Total(cs) + |c| + 1
  {
    assert (cs + [c])[..|cs|] == cs;
  }

  lemma {:induction false} TailsTotal<T>(copies: seq<seq<T>>)
    ensures Total(Tails(copies)) + |copies| == Total(copies)
  {
    if copies != [] {
      var init, c := copies[..|copies| - 1], copies[|copies| - 1];
      assert copies == init + [c];
      TailsTotal(init);
      TailsSnoc(init, c);
      TotalSnoc(init, c);
      if c != [] {
        TotalSnoc(Tails(init), c[1..]);
        assert Tails(copies) == Tails(init) + [c[1..]];
        assert Total(Tails(copies)) == Total(Tails(init)) + |c|;
      } else {
        assert Tails(copies) == Tails(init);
      }
      assert Total(copies) == Total(init) + |c| + 1;
    }
  }

  /** What `SplicedSequence#each` yields: one element of each live copy per pass until none are left. */
  function Splice<T>(copies: seq<seq<T>>): seq<T>
    decreases Total(copies)
  {
    if copies == [] then []
    else
      TailsTotal(copies);
      Heads(copies) + Splice(Tails(copies))
  }

  /** One pass of `keep_if`: yields the first element of each copy that has one and keeps the rest of those copies. */
  method Pass<T>(copies: seq<seq<T>>) returns (yielded: seq<T>, kept: seq<seq<T>>)
    ensures yielded == Heads(copies) && kept == Tails(copies)
  {
    yielded, kept := [], [];
    var i := 0;
    while i < |copies|
      invariant 0 <= i <= |copies|
      invariant yielded == Heads(copies[..i]) && kept == Tails(copies[..i])
    {
      assert copies[..i + 1] == copies[..i] + [copies[i]];
      HeadsSnoc(copies[..i], copies[i]);
      TailsSnoc(copies[..i], copies[i]);
      if copies[i] != [] {
        yielded := yielded + [copies[i][0]];
        kept := kept + [copies[i][1..]];
      }
      i := i + 1;
    }
    assert copies[..i] == copies;
  }

  /** `SplicedSequence#each`: passes over the live copies until none is left. */
  method SplicedEach<T>(sequences: seq<seq<T>>) returns (out: seq<T>)
    ensures out == Splice(sequences)
  {
    out := [];
    var copies := sequences;
    while copies != []
      invariant Splice(sequences) == out + Splice(copies)
      decreases Total(copies)
    {
      var yielded, kept := Pass(copies);
      TailsTotal(copies);
      assert Splice(copies) == yielded + Splice(kept);
      out := out + yielded;
      copies := kept;
    }
  }

  /** The input sequences joined end to end. */
  function Concat<T>(copies: seq<seq<T>>): seq<T> {
    if copies == [] then [] else Concat(copies[..|copies| - 1]) + copies[|copies| - 1]
  }

  lemma ConcatSnoc<T>(cs: seq<seq<T>>, c: seq<T>)
    ensures Concat(cs + [c]) == Concat(cs) + c
  {
    assert (cs + [c])[..|cs|] == cs;
  }

  lemma {:induction false} HeadsTailsSplit<T>(copies: seq<seq<T>>)
    ensures multiset(Heads(copies)) + multiset(Concat(Tails(copies))) == multiset(Concat(copies))
  {
    if copies != [] {
      var init, c := copies[..|copies| - 1], copies[|copies| - 1];
      assert copies == init + [c];
      HeadsTailsSplit(init);
      HeadsSnoc(init, c);
      TailsSnoc(init, c);
      ConcatSnoc(init, c);
      assert multiset(Concat(copies)) == multiset(Concat(init)) + multiset(c);
      if c != [] {
        ConcatSnoc(Tails(init), c[1..]);
        assert c == [c[0]] + c[1..];
        assert multiset(c) == multiset([c[0]]) + multiset(c[1..]);
        assert multiset(Heads(copies)) == multiset(Heads(init)) + multiset([c[0]]);
        assert multiset(Concat(Tails(copies))) == multiset(Concat(Tails(init))) + multiset(c[1..]);
      } else {
        assert Heads(copies) == Heads(init) && Tails(copies) == Tails(init);
      }
    }
  }

  /** The splice yields every element of every input sequence, each as often as it occurs there. */
  lemma {:induction false} SpliceIsPermutation<T>(copies: seq<seq<T>>)
    ensures multiset(Splice(copies)) == multiset(Concat(copies))
    decreases Total(copies)
  {
    if copies != [] {
      TailsTotal(copies);
      SpliceIsPermutation(Tails(copies));
      HeadsTailsSplit(copies);
    }
  }

  /** One pass over a single copy. */
  lemma OnePass<T>(xs: seq<T>)
    ensures Heads([xs]) == (if xs != [] then [xs[0]] else [])
    ensures Tails([xs]) == (if xs != [] then [xs[1..]] else [])
  {
    assert [xs] == [] + [xs];
    HeadsSnoc([], xs);
    TailsSnoc([], xs);
  }

  /** Splicing one sequence yields it unchanged. */
  lemma {:induction false} SpliceOne<T>(xs: seq<T>)
    ensures Splice([xs]) == xs
    decreases |xs|
  {
    OnePass(xs);
    if xs != [] {
      SpliceOne(xs[1..]);
      assert xs == [xs[0]] + xs[1..];
    }
  }

  /** One pass over two copies of one length. */
  lemma TwoPass<T>(a: seq<T>, b: seq<T>)
    requires |a| == |b|
    ensures a == [] ==> Heads([a, b]) == [] && Tails([a, b]) == []
    ensures a != [] ==> Heads([a, b]) == [a[0], b[0]] && Tails([a, b]) == [a[1..], b[1..]]
  {
    OnePass(a);
    assert [a, b] == [a] + [b];
    HeadsSnoc([a], b);
    TailsSnoc([a], b);
  }

  /** Splicing two sequences of one length starts with their first elements and continues with their rests. */
  lemma SpliceTwoStep<T>(a: seq<T>, b: seq<T>)
    requires |a| == |b|
    ensures a == [] ==> Splice([a, b]) == []
    ensures a != [] ==> Splice([a, b]) == [a[0], b[0]] + Splice([a[1..], b[1..]])
  {
    TwoPass(a, b);
  }

  /** Two sequences of one length splice into twice as many elements. */
  lemma {:induction false} SpliceTwoLength<T>(a: seq<T>, b: seq<T>)
    requires |a| == |b|
    ensures |Splice([a, b])| == 2 * |a|
    decreases |a|
  {
    SpliceTwoStep(a, b);
    if a != [] {
      SpliceTwoLength(a[1..], b[1..]);
    }
  }

  /** Two sequences of one length are spliced alternately: `a[0], b[0], a[1], b[1], …` */
  lemma {:induction false} SpliceTwo<T>(a: seq<T>, b: seq<T>, k: int)
    requires |a| == |b| && 0 <= k < |a|
    ensures |Splice([a, b])| == 2 * |a|
    ensures Splice([a, b])[2 * k] == a[k] && Splice([a, b])[2 * k + 1] == b[k]
    decreases |a|
  {
    SpliceTwoLength(a, b);
    SpliceTwoStep(a, b);
    if k > 0 {
      SpliceTwoLength(a[1..], b[1..]);
      SpliceTwo(a[1..], b[1..], k - 1);
      assert 2 * k == 2 * (k - 1) + 2;
    }
  }
}
