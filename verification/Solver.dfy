/** Augmentation along shortest paths, and the whole Jonker-Volgenant solver. */
module Solver {
  import opened Assignment
  import opened Lapjv
  import opened ShortestPath

  // ---------------------------------------------------------------- flipping one path

  /** `y` with every column of `path` handed to its predecessor row. */
  ghost predicate Flipped(y: seq<int>, pred: seq<int>, path: seq<int>, r: seq<int>)
    requires |pred| == |y|
  {
    && |r| == |y|
    && forall c :: 0 <= c < |y| ==> r[c] == if c in path then pred[c] else y[c]
  }

  /** The predecessor rows along an augmenting path are all different, the start row comes
      last, and each but that one owns the next column. */
  lemma PathRows(cost: Matrix, n: nat, x: seq<int>, y: seq<int>, w: seq<real>, pred: seq<int>, start: int,
                 path: seq<int>, s: int)
    requires Square(cost, n) && Matched(n, x, y) && |w| == n && |pred| == n
    requires AugmentingPath(cost, n, y, w, pred, start, path) && start !in y && 0 <= s < |path|
    ensures if s == |path| - 1 then pred[path[s]] == start
            else pred[path[s]] != start && pred[path[s]] == y[path[s + 1]] && x[pred[path[s]]] == path[s + 1]
    ensures forall q :: 0 <= q < s ==> pred[path[q]] != pred[path[s]]
  {
    if s < |path| - 1 {
      assert y[path[s + 1]] in y;
    }
    forall q | 0 <= q < s
      ensures pred[path[q]] != pred[path[s]]
    {
      assert pred[path[q]] == y[path[q + 1]] && x[y[path[q + 1]]] == path[q + 1];
      assert y[path[q + 1]] in y;
    }
  }

  /** Exactly the start row gains a column. */
  lemma FlippedRows(cost: Matrix, n: nat, y: seq<int>, w: seq<real>, pred: seq<int>, start: int, path: seq<int>,
                    y': seq<int>, r: int)
    requires Square(cost, n) && |y| == n && |w| == n && |pred| == n && 0 <= r < n
    requires AugmentingPath(cost, n, y, w, pred, start, path) && Flipped(y, pred, path, y')
    ensures r in y' <==> r in y || r == start
  {
    var last := |path| - 1;
    if r in y' {
      var c :| 0 <= c < n && y'[c] == r;
      if c in path {
        var s :| 0 <= s < |path| && path[s] == c;
        if s < last {
          assert y[path[s + 1]] == pred[path[s]] == r;
        }
      } else {
        assert y[c] == r;
      }
    }
    if r in y {
      var c :| 0 <= c < n && y[c] == r;
      if c in path {
        var s :| 0 <= s < |path| && path[s] == c;
        assert s >= 1 && pred[path[s - 1]] == r;
        assert y'[path[s - 1]] == r;
      } else {
        assert y'[c] == r;
      }
    }
    if r == start {
      assert y'[path[last]] == r;
    }
  }

  lemma FlippedFreeRows(cost: Matrix, n: nat, y: seq<int>, w: seq<real>, pred: seq<int>, start: int, path: seq<int>,
                        y': seq<int>, rest: seq<int>)
    requires Square(cost, n) && |y| == n && |w| == n && |pred| == n
    requires AugmentingPath(cost, n, y, w, pred, start, path) && Flipped(y, pred, path, y')
    requires FreeRows(n, [start] + rest, y)
    ensures FreeRows(n, rest, y')
  {
    var free := [start] + rest;
    assert forall k :: 0 <= k < |rest| ==> free[k + 1] == rest[k];
    assert free[0] == start;
    forall r | 0 <= r < n
      ensures r in rest <==> r !in y'
    {
      FlippedRows(cost, n, y, w, pred, start, path, y', r);
      assert r in free <==> r == start || r in rest;
    }
  }

  lemma FlippedSlack(cost: Matrix, n: nat, y: seq<int>, w: seq<real>, pred: seq<int>, start: int, path: seq<int>,
                     y': seq<int>)
    requires Square(cost, n) && |y| == n && |w| == n && |pred| == n
    requires |y'| == n && forall j :: 0 <= j < n ==> -1 <= y[j] < n && -1 <= y'[j] < n
    requires AugmentingPath(cost, n, y, w, pred, start, path) && Flipped(y, pred, path, y') && Slack(cost, n, y, w)
    ensures Slack(cost, n, y', w)
  {
    forall c | 0 <= c < n && y'[c] >= 0
      ensures Tight(cost, n, w, y'[c], c)
    {
      if c in path {
        var s :| 0 <= s < |path| && path[s] == c;
      }
    }
  }

  lemma {:induction false} DistinctLength(path: seq<int>, n: nat)
    requires Distinct(path) && forall t :: 0 <= t < |path| ==> 0 <= path[t] < n
    ensures |path| <= n
  {
    assert path[..|path|] == path;
    SubsetSize(ImageOf(path, |path|), RangeTo(n));
  }

  /** Row `r` is the predecessor of one of the first `k` columns of `path`. */
  ghost predicate Moved(pred: seq<int>, path: seq<int>, k: nat, r: int)
    requires k <= |path| && forall s :: 0 <= s < |path| ==> 0 <= path[s] < |pred|
  {
    exists s :: 0 <= s < k && pred[path[s]] == r
  }

  /** The first `k` columns of `path` have their predecessor rows; nothing else has changed. */
  ghost predicate FlippedTo(n: nat, x0: seq<int>, y0: seq<int>, pred: seq<int>, path: seq<int>, k: nat,
                            x: seq<int>, y: seq<int>)
    requires |x0| == |y0| == |pred| == n && k <= |path|
    requires forall s :: 0 <= s < |path| ==> 0 <= path[s] < n && 0 <= pred[path[s]] < n
  {
    && |x| == |y| == n
    && (forall c :: 0 <= c < n && c !in path[..k] ==> y[c] == y0[c])
    && (forall s :: 0 <= s < k ==> y[path[s]] == pred[path[s]] && x[pred[path[s]]] == path[s])
    && (forall r :: 0 <= r < n && !Moved(pred, path, k, r) ==> x[r] == x0[r])
  }

  lemma FlipStep(cost: Matrix, n: nat, x0: seq<int>, y0: seq<int>, w: seq<real>, pred: seq<int>, start: int,
                 path: seq<int>, k: nat, x: seq<int>, y: seq<int>)
    requires Square(cost, n) && Matched(n, x0, y0) && |w| == n && |pred| == n && start !in y0 && k < |path|
    requires AugmentingPath(cost, n, y0, w, pred, start, path) && FlippedTo(n, x0, y0, pred, path, k, x, y)
    ensures var i := pred[path[k]];
      && FlippedTo(n, x0, y0, pred, path, k + 1, x[i := path[k]], y[path[k] := i])
      && (if k == |path| - 1 then i == start else i != start && x[i] == path[k + 1])
  {
    PathRows(cost, n, x0, y0, w, pred, start, path, k);
    assert !Moved(pred, path, k, pred[path[k]]);
    FlipOne(n, x0, y0, pred, path, k, x, y);
  }

  lemma FlipOne(n: nat, x0: seq<int>, y0: seq<int>, pred: seq<int>, path: seq<int>, k: nat, x: seq<int>, y: seq<int>)
    requires |x0| == |y0| == |pred| == n && k < |path| && Distinct(path)
    requires forall s :: 0 <= s < |path| ==> 0 <= path[s] < n && 0 <= pred[path[s]] < n
    requires !Moved(pred, path, k, pred[path[k]]) && FlippedTo(n, x0, y0, pred, path, k, x, y)
    ensures FlippedTo(n, x0, y0, pred, path, k + 1, x[pred[path[k]] := path[k]], y[path[k] := pred[path[k]]])
  {
    var i, k' := pred[path[k]], k + 1;
    var y', x' := y[path[k] := i], x[i := path[k]];
    assert path[..k'] == path[..k] + [path[k]];
    forall s | 0 <= s < k'
      ensures y'[path[s]] == pred[path[s]] && x'[pred[path[s]]] == path[s]
    {
      assert s < k ==> path[s] != path[k] && pred[path[s]] != i;
    }
    forall r | 0 <= r < n && !Moved(pred, path, k', r)
      ensures x'[r] == x0[r]
    {
      assert r != i && !Moved(pred, path, k, r);
    }
  }

  /** Walks back from the free column `finalJ`: every column on the way takes its predecessor
      row, which gives up the column it had. */
  method FlipPath(n: nat, cost: Matrix, startI: int, finalJ: int, x: array<int>, y: array<int>, pred: array<int>,
                  ghost w: seq<real>, ghost path: seq<int>)
    returns (k: nat)
    requires Square(cost, n) && x.Length == y.Length == pred.Length == n && |w| == n
    requires x != y && pred != x && pred != y
    requires Matched(n, x[..], y[..]) && startI !in y[..] && startI >= 0
    requires AugmentingPath(cost, n, y[..], w, pred[..], startI, path) && path[0] == finalJ
    modifies x, y
    ensures Matched(n, x[..], y[..]) && Flipped(old(y[..]), pred[..], path, y[..])
    ensures k == |path| <= n
  {
    ghost var x0, y0, p := x[..], y[..], pred[..];
    var i, j := -1, finalJ;
    k := 0;
    while i != startI
      invariant k <= |path| && (i == startI <==> k == |path|)
      invariant k < |path| ==> j == path[k]
      invariant FlippedTo(n, x0, y0, p, path, k, x[..], y[..])
      decreases |path| - k
    {
      FlipStep(cost, n, x0, y0, w, p, startI, path, k, x[..], y[..]);
      i := pred[j];
      y[j] := i;
      j, x[i] := x[i], j;
      k := k + 1;
    }
    assert path[..k] == path;
    assert forall c :: 0 <= c < n && c in path ==> y[c] == p[c];
    FlippedMatched(cost, n, x0, y0, w, p, startI, path, x[..], y[..]);
    DistinctLength(path, n);
  }

  lemma FlippedMatched(cost: Matrix, n: nat, x: seq<int>, y: seq<int>, w: seq<real>, pred: seq<int>, start: int,
                       path: seq<int>, x': seq<int>, y': seq<int>)
    requires Square(cost, n) && Matched(n, x, y) && |w| == n && |pred| == n && |x'| == n && start !in y
    requires AugmentingPath(cost, n, y, w, pred, start, path) && Flipped(y, pred, path, y')
    requires forall s :: 0 <= s < |path| ==> x'[pred[path[s]]] == path[s]
    requires forall r :: 0 <= r < n && !Moved(pred, path, |path|, r) ==> x'[r] == x[r]
    ensures Matched(n, x', y')
  {
    forall c | 0 <= c < n
      ensures -1 <= y'[c] < n && (y'[c] >= 0 ==> x'[y'[c]] == c)
    {
      if c in path {
        var s :| 0 <= s < |path| && path[s] == c;
      } else if y[c] >= 0 {
        forall s | 0 <= s < |path|
          ensures pred[path[s]] != y[c]
        {
          PathRows(cost, n, x, y, w, pred, start, path, s);
          assert y[c] in y;
        }
      }
    }
  }

  // ---------------------------------------------------------------- the solver

  /** Gives every remaining free row a column along a shortest augmenting path. */
  method Augment(n: nat, cost: Matrix, nFree: nat, freeRows: array<int>, x: array<int>, y: array<int>, v: array<real>)
    returns (ret: int)
    requires Square(cost, n) && freeRows.Length == x.Length == y.Length == v.Length == n && nFree <= n
    requires freeRows != x && freeRows != y && x != y
    requires Reduced(cost, n, x[..], y[..], v[..], freeRows[..nFree])
    modifies x, y, v
    ensures ret == 0
    ensures Reduced(cost, n, x[..], y[..], v[..], [])
  {
    var pred := new int[n];
    for f := 0 to nFree
      invariant Reduced(cost, n, x[..], y[..], v[..], freeRows[f..nFree])
    {
      assert freeRows[f..nFree] == [freeRows[f]] + freeRows[f + 1..nFree];
      AugmentRow(n, cost, freeRows[f], x, y, v, pred, freeRows[f + 1..nFree]);
    }
    ret := 0;
  }

  method AugmentRow(n: nat, cost: Matrix, freeI: int, x: array<int>, y: array<int>, v: array<real>, pred: array<int>,
                    ghost rest: seq<int>)
    requires Square(cost, n) && x.Length == y.Length == v.Length == pred.Length == n
    requires x != y && pred != x && pred != y
    requires Reduced(cost, n, x[..], y[..], v[..], [freeI] + rest)
    modifies x, y, v, pred
    ensures Reduced(cost, n, x[..], y[..], v[..], rest)
  {
    ghost var y0 := y[..];
    assert ([freeI] + rest)[0] == freeI;
    var j, path := FindPath(n, cost, freeI, y, v, pred, x[..]);
    ghost var w, p := v[..], pred[..];
    var k := FlipPath(n, cost, freeI, j, x, y, pred, w, path);
    FlippedFreeRows(cost, n, y0, w, p, freeI, path, y[..], rest);
    FlippedSlack(cost, n, y0, w, p, freeI, path, y[..]);
  }

  /** With no free row left, x and y are inverse permutations and the prices certify optimality. */
  lemma ReducedIsOptimal(cost: Matrix, n: nat, x: seq<int>, y: seq<int>, v: seq<real>)
    requires Square(cost, n) && Reduced(cost, n, x, y, v, [])
    ensures IsPermutation(y, n) && (forall i :: 0 <= i < n ==> 0 <= x[i] < n && y[x[i]] == i)
    ensures IsOptimal(cost, x, n)
  {
    forall i | 0 <= i < n
      ensures 0 <= x[i] < n && y[x[i]] == i
    {
      assert i !in [];
      var j :| 0 <= j < n && y[j] == i;
    }
    forall a, b | 0 <= a < b < n
      ensures x[a] != x[b]
    {
      assert y[x[a]] == a && y[x[b]] == b;
    }
    forall j | 0 <= j < n
      ensures y[j] >= 0
    {
      PermutationCovers(x, n, j);
      var i :| 0 <= i < n && x[i] == j;
    }
    forall a, b | 0 <= a < b < n
      ensures y[a] != y[b]
    {
      assert x[y[a]] == a && x[y[b]] == b;
    }
    DualityCertificate(cost, n, v, x);
  }

  /** Solves the assignment problem: x and y are left as inverse permutations of least cost. */
  method Solve(n: nat, cost: Matrix, x: array<int>, y: array<int>, ghost lo: real, ghost hi: real) returns (ret: int)
    requires n >= 1 && Square(cost, n) && InRange(cost, n, lo, hi)
    requires x.Length == y.Length == n && x != y
    modifies x, y
    ensures ret == 0
    ensures IsPermutation(x[..], n) && IsPermutation(y[..], n)
    ensures forall i :: 0 <= i < n ==> y[x[i]] == i && x[y[i]] == i
    ensures IsOptimal(cost, x[..], n)
  {
    var freeRows := new int[n];
    var v := new real[n];
    ret := ColumnReduction(n, cost, freeRows, x, y, v, lo, hi);
    var i := 0;
    while ret > 0 && i < 2
      invariant 0 <= ret <= n && i <= 2
      invariant Reduced(cost, n, x[..], y[..], v[..], freeRows[..ret])
      invariant PricesHigh(cost, n, y[..], v[..], lo, hi)
    {
      ghost var rounds;
      ret, rounds := AugmentingRowReduction(n, cost, ret, freeRows, x, y, v, lo, hi);
      i := i + 1;
    }
    if ret > 0 {
      ret := Augment(n, cost, ret, freeRows, x, y, v);
    } else {
      assert freeRows[..ret] == [];
    }
    ReducedIsOptimal(cost, n, x[..], y[..], v[..]);
  }
}
