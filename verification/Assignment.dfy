/** The linear assignment problem: square cost matrices, permutations, and the
    duality argument by which column prices certify that a permutation is cheapest.
 */
module Assignment {

  type Matrix = seq<seq<real>>

  ghost predicate Shape(cost: Matrix, rows: nat, cols: nat) {
    |cost| == rows && forall i :: 0 <= i < rows ==> |cost[i]| == cols
  }

  ghost predicate Square(cost: Matrix, n: nat) {
    Shape(cost, n, n)
  }

  ghost predicate Distinct(s: seq<int>) {
    forall i, j :: 0 <= i < j < |s| ==> s[i] != s[j]
  }

  ghost predicate IsPermutation(p: seq<int>, n: nat) {
    && |p| == n
    && (forall i :: 0 <= i < n ==> 0 <= p[i] < n)
    && Distinct(p)
  }

  /** What the first `k` rows pay when row `i` takes column `p[i]`. */
  ghost function Cost(cost: Matrix, p: seq<int>, k: nat): real
    requires k <= |p| && k <= |cost|
    requires forall i :: 0 <= i < k ==> 0 <= p[i] < |cost[i]|
  {
    if k == 0 then 0.0 else Cost(cost, p, k - 1) + cost[k - 1][p[k - 1]]
  }

  ghost predicate IsOptimal(cost: Matrix, p: seq<int>, n: nat)
    requires Square(cost, n)
  {
    && IsPermutation(p, n)
    && forall q :: IsPermutation(q, n) ==> Cost(cost, p, n) <= Cost(cost, q, n)
  }

  /** Reduced cost of column `j` for row `i` under the column prices `v`. */
  function Red(cost: Matrix, v: seq<real>, i: int, j: int): real
    requires 0 <= i < |cost| && 0 <= j < |cost[i]| && j < |v|
  {
    cost[i][j] - v[j]
  }

  /** Row `i` is served at least reduced cost by column `j`. */
  ghost predicate Tight(cost: Matrix, n: nat, v: seq<real>, i: int, j: int)
    requires Square(cost, n) && |v| == n && 0 <= i < n && 0 <= j < n
  {
    forall k :: 0 <= k < n ==> Red(cost, v, i, j) <= Red(cost, v, i, k)
  }

  // ---------------------------------------------------------------- counting

  /** A distinct sequence of `n` values below `n` misses none of them. */
  lemma {:induction false} PermutationCovers(p: seq<int>, n: nat, i: int)
    requires IsPermutation(p, n) && 0 <= i < n
    ensures i in p
  {
    if i !in p {
      var a, b := ImageOf(p, n), RangeTo(n) - {i};
      forall e | e in a
        ensures e in b
      {
        var t :| 0 <= t < n && p[..n][t] == e;
        assert e == p[t];
      }
      SubsetSize(a, b);
    }
  }

  ghost function RangeTo(n: nat): (s: set<int>)
    ensures |s| == n && forall k :: k in s <==> 0 <= k < n
  {
    if n == 0 then {} else RangeTo(n - 1) + {n - 1}
  }

  ghost function ImageOf(p: seq<int>, k: nat): (s: set<int>)
    requires Distinct(p) && k <= |p|
    ensures |s| == k && (forall e :: e in s <==> e in p[..k])
  {
    if k == 0 then {} else
      assert p[..k] == p[..k - 1] + [p[k - 1]];
      ImageOf(p, k - 1) + {p[k - 1]}
  }

  lemma {:induction false} SubsetSize<T>(a: set<T>, b: set<T>)
    requires a <= b
    ensures |a| <= |b|
  {
    if a != {} {
      var e :| e in a;
      SubsetSize(a - {e}, b - {e});
    }
  }

  // ---------------------------------------------------------------- prices

  ghost function Sum(v: seq<real>): real {
    if v == [] then 0.0 else Sum(v[..|v| - 1]) + v[|v| - 1]
  }

  /** Total price of the columns that the first `k` rows take. */
  ghost function PriceOf(v: seq<real>, p: seq<int>, k: nat): real
    requires k <= |p| && forall i :: 0 <= i < k ==> 0 <= p[i] < |v|
  {
    if k == 0 then 0.0 else PriceOf(v, p, k - 1) + v[p[k - 1]]
  }

  /** A shorter permutation: the last entry moves to the place of the largest one. */
  lemma LastMovedTo(p: seq<int>, n: nat, t: nat) returns (q: seq<int>)
    requires n > 0 && IsPermutation(p, n) && t < n && p[t] == n - 1
    ensures IsPermutation(q, n - 1) && forall i :: 0 <= i < n - 1 ==> q[i] == if i == t then p[n - 1] else p[i]
  {
    q := p[t := p[n - 1]][..n - 1];
    assert forall i :: 0 <= i < n - 1 ==> q[i] == if i == t then p[n - 1] else p[i];
  }

  /** Every permutation buys all columns, so all pay the same total price. */
  lemma {:induction false} PriceOfPermutation(v: seq<real>, p: seq<int>, n: nat)
    requires IsPermutation(p, n) && |v| == n
    ensures PriceOf(v, p, n) == Sum(v)
  {
    if n > 0 {
      PermutationCovers(p, n, n - 1);
      var t :| 0 <= t < n && p[t] == n - 1;
      var q := LastMovedTo(p, n, t);
      PriceOfPermutation(v[..n - 1], q, n - 1);
      if t == n - 1 {
        PriceOfSame(v, v[..n - 1], p, q, n - 1);
      } else {
        PriceOfSwap(v, p, q, t, n - 1);
      }
    }
  }

  lemma {:induction false} PriceOfSame(v: seq<real>, w: seq<real>, p: seq<int>, q: seq<int>, k: nat)
    requires k <= |p| && k <= |q|
    requires forall i :: 0 <= i < k ==> 0 <= p[i] < |v| && 0 <= q[i] < |w| && v[p[i]] == w[q[i]]
    ensures PriceOf(v, p, k) == PriceOf(w, q, k)
  {
    if k > 0 {
      PriceOfSame(v, w, p, q, k - 1);
    }
  }

  lemma {:induction false} PriceOfSwap(v: seq<real>, p: seq<int>, q: seq<int>, t: nat, m: nat)
    requires |p| == m + 1 && |q| == m && |v| == m + 1 && t < m && p[t] == m
    requires forall i :: 0 <= i <= m ==> 0 <= p[i] <= m
    requires forall i :: 0 <= i < m ==> q[i] == if i == t then p[m] else p[i]
    requires forall i :: 0 <= i < m ==> 0 <= q[i] < m
    ensures PriceOf(v, p, m + 1) == PriceOf(v[..m], q, m) + v[m]
  {
    PriceOfSwapPrefix(v, p, q, t, m, m);
  }

  lemma {:induction false} PriceOfSwapPrefix(v: seq<real>, p: seq<int>, q: seq<int>, t: nat, m: nat, k: nat)
    requires |p| == m + 1 && |q| == m && |v| == m + 1 && t < m && p[t] == m && k <= m
    requires forall i :: 0 <= i <= m ==> 0 <= p[i] <= m
    requires forall i :: 0 <= i < m ==> q[i] == if i == t then p[m] else p[i]
    requires forall i :: 0 <= i < m ==> 0 <= q[i] < m
    ensures PriceOf(v, p, k) + (if k > t then v[p[m]] - v[m] else 0.0) == PriceOf(v[..m], q, k)
  {
    if k > 0 {
      PriceOfSwapPrefix(v, p, q, t, m, k - 1);
    }
  }

  // ---------------------------------------------------------------- duality

  /** Term by term, tight rows pay no more than any others once prices are added back. */
  lemma {:induction false} TightIsCheaper(cost: Matrix, n: nat, v: seq<real>, p: seq<int>, q: seq<int>, k: nat)
    requires Square(cost, n) && |v| == n && k <= n
    requires IsPermutation(p, n) && IsPermutation(q, n)
    requires forall i :: 0 <= i < n ==> Tight(cost, n, v, i, p[i])
    ensures Cost(cost, p, k) - PriceOf(v, p, k) <= Cost(cost, q, k) - PriceOf(v, q, k)
  {
    if k > 0 {
      TightIsCheaper(cost, n, v, p, q, k - 1);
      assert Tight(cost, n, v, k - 1, p[k - 1]);
      assert Red(cost, v, k - 1, p[k - 1]) <= Red(cost, v, k - 1, q[k - 1]);
    }
  }

  /** Column prices under which every row is tight certify that a permutation is cheapest. */
  lemma DualityCertificate(cost: Matrix, n: nat, v: seq<real>, p: seq<int>)
    requires Square(cost, n) && |v| == n && IsPermutation(p, n)
    requires forall i :: 0 <= i < n ==> Tight(cost, n, v, i, p[i])
    ensures IsOptimal(cost, p, n)
  {
    forall q | IsPermutation(q, n)
      ensures Cost(cost, p, n) <= Cost(cost, q, n)
    {
      TightIsCheaper(cost, n, v, p, q, n);
      PriceOfPermutation(v, p, n);
      PriceOfPermutation(v, q, n);
    }
  }
}
