/** The Jonker-Volgenant solver for the dense linear assignment problem: column
    reduction with reduction transfer, augmenting row reduction, shortest augmenting
    paths and augmentation, all in place over the arrays x, y, v, d, cols, pred and
    freeRows. `x[i]` is the column of row i, `y[j]` the row of column j (-1 when it has
    none) and `v[j]` the price of column j.

    A row that loses its column keeps a stale entry in x, so everything is stated
    through y: an assigned row sits at its least reduced cost (Slack).
 */
module Lapjv {
  import opened Assignment

  const LARGE := 1000000.0

  /** Costs lie in an interval below the sentinel LARGE and shorter than it. */
  ghost predicate InRange(cost: Matrix, n: nat, lo: real, hi: real)
    requires Square(cost, n)
  {
    && hi < LARGE
    && hi - lo < LARGE
    && forall i, j :: 0 <= i < n && 0 <= j < n ==> lo <= cost[i][j] <= hi
  }

  /** y holds rows or -1, and x agrees with it on every assigned column. */
  ghost predicate Matched(n: nat, x: seq<int>, y: seq<int>) {
    && |x| == n && |y| == n
    && (forall j :: 0 <= j < n ==> -1 <= y[j] < n)
    && (forall j :: 0 <= j < n && y[j] >= 0 ==> x[y[j]] == j)
  }

  /** Complementary slackness: an assigned column is a cheapest one for its row. */
  ghost predicate Slack(cost: Matrix, n: nat, y: seq<int>, v: seq<real>)
    requires Square(cost, n) && |y| == n && |v| == n
    requires forall j :: 0 <= j < n ==> -1 <= y[j] < n
  {
    forall j :: 0 <= j < n && y[j] >= 0 ==> Tight(cost, n, v, y[j], j)
  }

  /** `free` lists, once each, exactly the rows that own no column. */
  ghost predicate FreeRows(n: nat, free: seq<int>, y: seq<int>) {
    && (forall k :: 0 <= k < |free| ==> 0 <= free[k] < n)
    && Distinct(free)
    && forall i :: 0 <= i < n ==> (i in free <==> i !in y)
  }

  ghost predicate ColumnMinimum(cost: Matrix, n: nat, v: seq<real>, j: int)
    requires Square(cost, n) && |v| == n && 0 <= j < n
  {
    && (exists i :: 0 <= i < n && v[j] == cost[i][j])
    && forall i :: 0 <= i < n ==> v[j] <= cost[i][j]
  }

  ghost predicate IsCheapest(cost: Matrix, n: nat, i: int, j: int)
    requires Square(cost, n) && 0 <= i < n && 0 <= j < n
  {
    forall k :: 0 <= k < n ==> cost[i][j] <= cost[k][j]
  }

  /** Row `i` is a cheapest one for column `u` and for column `w`. */
  ghost predicate CheapestInBoth(cost: Matrix, n: nat, i: int, u: int, w: int)
    requires Square(cost, n) && 0 <= u < n
  {
    0 <= i < n && 0 <= w < n && w != u && IsCheapest(cost, n, i, u) && IsCheapest(cost, n, i, w)
  }

  /** Some row is cheapest for column `u` and for another one, the one that it kept when it was chosen by both. */
  ghost predicate Rejected(cost: Matrix, n: nat, u: int)
    requires Square(cost, n) && 0 <= u < n
  {
    exists i, w :: CheapestInBoth(cost, n, i, u, w)
  }

  /** The price of column `j` is not farther below one of its costs than the costs lie apart. */
  ghost predicate NearCost(cost: Matrix, n: nat, v: seq<real>, j: int, lo: real, hi: real)
    requires Square(cost, n) && |v| == n && 0 <= j < n
  {
    exists i :: 0 <= i < n && Red(cost, v, i, j) <= hi - lo
  }

  /** A never assigned column is still priced at its minimum; while there is one, no price has fallen
      farther below the costs of its column than the costs lie apart. */
  ghost predicate PricesHigh(cost: Matrix, n: nat, y: seq<int>, v: seq<real>, lo: real, hi: real)
    requires Square(cost, n) && |y| == n && |v| == n
  {
    && (forall u :: 0 <= u < n && y[u] < 0 ==> ColumnMinimum(cost, n, v, u) && Rejected(cost, n, u))
    && (SomeFree(y) ==> forall j {:trigger NearCost(cost, n, v, j, lo, hi)} ::
          0 <= j < n ==> NearCost(cost, n, v, j, lo, hi))
  }

  ghost predicate SomeFree(y: seq<int>) {
    exists u :: 0 <= u < |y| && y[u] < 0
  }

  ghost predicate Reduced(cost: Matrix, n: nat, x: seq<int>, y: seq<int>, v: seq<real>, free: seq<int>)
    requires Square(cost, n)
  {
    && Matched(n, x, y)
    && |v| == n
    && Slack(cost, n, y, v)
    && FreeRows(n, free, y)
  }

  // ---------------------------------------------------------------- steps on values

  lemma AssignKeepsMatched(n: nat, x: seq<int>, y: seq<int>, i: int, j: int)
    requires Matched(n, x, y) && 0 <= i < n && 0 <= j < n && i !in y
    ensures Matched(n, x[i := j], y[j := i])
  {
  }

  /** Handing column `j`, perhaps at a lower price, to a free row that is tight there
      leaves every other assigned row tight. */
  lemma AssignKeepsSlack(cost: Matrix, n: nat, y: seq<int>, v: seq<real>, w: seq<real>, i: int, j: int)
    requires Square(cost, n) && |y| == n && |v| == n && |w| == n
    requires forall k :: 0 <= k < n ==> -1 <= y[k] < n
    requires Slack(cost, n, y, v) && 0 <= i < n && 0 <= j < n
    requires w[j] <= v[j] && forall k :: 0 <= k < n && k != j ==> w[k] == v[k]
    requires Tight(cost, n, w, i, j)
    ensures Slack(cost, n, y[j := i], w)
  {
    var y' := y[j := i];
    forall m | 0 <= m < n && y'[m] >= 0
      ensures Tight(cost, n, w, y'[m], m)
    {
      if m != j {
        assert Tight(cost, n, v, y[m], m);
        forall k | 0 <= k < n
          ensures Red(cost, w, y[m], m) <= Red(cost, w, y[m], k)
        {
          assert Red(cost, v, y[m], m) <= Red(cost, v, y[m], k);
        }
      }
    }
  }

  lemma DistinctParts(a: seq<int>, i: int, b: seq<int>)
    requires Distinct(a + [i] + b)
    ensures i !in a && i !in b && Distinct(a) && Distinct(b) && (forall r :: r in a ==> r !in b)
  {
    var f := a + [i] + b;
    assert forall p :: 0 <= p < |a| ==> f[p] == a[p];
    assert forall p :: 0 <= p < |b| ==> f[|a| + 1 + p] == b[p];
    assert f[|a|] == i;
  }

  lemma DistinctJoin(a: seq<int>, m: seq<int>, b: seq<int>)
    requires Distinct(a) && Distinct(b) && (forall r :: r in a ==> r !in b)
    requires |m| <= 1 && forall r :: r in m ==> r !in a && r !in b
    ensures Distinct(a + m + b)
  {
    var g := a + m + b;
    forall p, q | 0 <= p < q < |g|
      ensures g[p] != g[q]
    {
      if p < |a| {
        assert g[p] in a;
        assert q >= |a| ==> g[q] in m || g[q] in b;
      } else if p < |a| + |m| {
        assert g[p] in m && g[q] in b;
      }
    }
  }

  /** Giving column `j` to the free row `i` takes it from its owner and from nobody else. */
  lemma OwnersAfterAssign(n: nat, x: seq<int>, y: seq<int>, i: int, j: int, r: int)
    requires Matched(n, x, y) && 0 <= i < n && 0 <= j < n && 0 <= r < n && i !in y
    ensures r in y[j := i] <==> r == i || (r in y && r != y[j])
  {
    var y' := y[j := i];
    assert y'[j] == i;
    if r in y' && r != i {
      var m :| 0 <= m < n && y'[m] == r;
      assert y[m] == r && m != j && x[y[m]] == m;
    }
    if r in y && r != y[j] {
      var m :| 0 <= m < n && y[m] == r;
      assert y'[m] == r;
    }
  }

  /** Row `i` leaves the free list for column `j`; the row that owned `j`, if any, takes its place. */
  lemma AssignKeepsFreeRows(n: nat, x: seq<int>, y: seq<int>, a: seq<int>, b: seq<int>, i: int, j: int)
    requires Matched(n, x, y) && 0 <= i < n && 0 <= j < n
    requires FreeRows(n, a + [i] + b, y)
    ensures FreeRows(n, a + (if y[j] < 0 then [] else [y[j]]) + b, y[j := i])
  {
    var f, m := a + [i] + b, if y[j] < 0 then [] else [y[j]];
    var g := a + m + b;
    assert f[|a|] == i;
    DistinctParts(a, i, b);
    assert y[j] >= 0 ==> y[j] in y && y[j] !in f;
    DistinctJoin(a, m, b);
    assert forall r :: r in f <==> r in a || r == i || r in b;
    assert forall r :: r in g <==> r in a || r in m || r in b;
    assert forall k :: 0 <= k < |f| ==> f[k] in f;
    assert forall k :: 0 <= k < |g| ==> g[k] in g;
    assert forall r :: r in f ==> 0 <= r < n;
    forall r | 0 <= r < n
      ensures r in g <==> r !in y[j := i]
    {
      OwnersAfterAssign(n, x, y, i, j, r);
    }
  }

  /** As many columns as rows: while a row is free, so is a column. */
  lemma FreeColumn(n: nat, x: seq<int>, y: seq<int>, i: int) returns (u: int)
    requires Matched(n, x, y) && 0 <= i < n && i !in y
    ensures 0 <= u < n && y[u] < 0
  {
    if forall j :: 0 <= j < n ==> y[j] >= 0 {
      assert Distinct(y) by {
        forall a, b | 0 <= a < b < n
          ensures y[a] != y[b]
        {
          assert x[y[a]] == a && x[y[b]] == b;
        }
      }
      PermutationCovers(y, n, i);
    }
    u :| 0 <= u < n && y[u] < 0;
  }

  lemma TwoFreeColumns(n: nat, x: seq<int>, y: seq<int>, i: int, p: int, u: int) returns (t: int)
    requires Matched(n, x, y) && 0 <= i < n && 0 <= p < n && i != p && i !in y && p !in y && 0 <= u < n && y[u] < 0
    ensures 0 <= t < n && t != u && y[t] < 0
  {
    AssignKeepsMatched(n, x, y, i, u);
    OwnersAfterAssign(n, x, y, i, u, p);
    t := FreeColumn(n, x[i := u], y[u := i], p);
  }

  // ---------------------------------------------------------------- column reduction

  /** `row` is the first of the first `rows` rows that reaches the least cost of column `j`. */
  ghost predicate CheapestRow(cost: Matrix, n: nat, j: int, rows: nat, value: real, row: int)
    requires Square(cost, n) && rows <= n && 0 <= j < n
  {
    if rows == 0 then value == LARGE && row == 0
    else
      && 0 <= row < rows && value == cost[row][j]
      && (forall i :: 0 <= i < rows ==> value <= cost[i][j])
      && (forall i :: 0 <= i < row ==> value < cost[i][j])
  }

  lemma TransferKeepsSlack(cost: Matrix, n: nat, x: seq<int>, y: seq<int>, v: seq<real>, w: seq<real>, j: int, mn: real)
    requires Square(cost, n) && Matched(n, x, y) && |v| == n && |w| == n && Slack(cost, n, y, v)
    requires 0 <= j < n && y[j] >= 0 && mn >= 0.0
    requires w == v[j := v[j] - mn] && v[j] == cost[y[j]][j]
    requires forall k :: 0 <= k < n && k != j ==> mn <= Red(cost, v, y[j], k)
    ensures Slack(cost, n, y, w)
  {
    forall k | 0 <= k < n
      ensures Red(cost, w, y[j], j) <= Red(cost, w, y[j], k)
    {
      if k != j {
        assert mn <= Red(cost, v, y[j], k) == Red(cost, w, y[j], k);
      }
    }
    AssignKeepsSlack(cost, n, y, v, w, y[j], j);
    assert y[j := y[j]] == y;
  }

  /** First loop nest: every column takes its least cost as price and the first row reaching it. */
  method ColumnMinima(n: nat, cost: Matrix, x: array<int>, y: array<int>, v: array<real>)
    requires Square(cost, n) && x.Length == y.Length == v.Length == n && x != y
    requires forall i, j :: 0 <= i < n && 0 <= j < n ==> cost[i][j] < LARGE
    modifies x, y, v
    ensures forall i :: 0 <= i < n ==> x[i] == -1
    ensures forall j :: 0 <= j < n ==> CheapestRow(cost, n, j, n, v[j], y[j])
  {
    for i := 0 to n
      invariant forall k :: 0 <= k < i ==> x[k] == -1 && v[k] == LARGE && y[k] == 0
    {
      x[i], v[i], y[i] := -1, LARGE, 0;
    }
    for i := 0 to n
      invariant forall k :: 0 <= k < n ==> x[k] == -1
      invariant forall k :: 0 <= k < n ==> CheapestRow(cost, n, k, i, v[k], y[k])
    {
      for j := 0 to n
        invariant forall k :: 0 <= k < n ==> x[k] == -1
        invariant forall k :: 0 <= k < j ==> CheapestRow(cost, n, k, i + 1, v[k], y[k])
        invariant forall k :: j <= k < n ==> CheapestRow(cost, n, k, i, v[k], y[k])
      {
        var c := cost[i][j];
        if c < v[j] {
          v[j] := c;
          y[j] := i;
        }
      }
    }
  }

  /** Second loop: from the right, each row keeps the first column that chose it; later
      ones lose their row, and mark it as chosen more than once. */
  method KeepLastColumns(n: nat, x: array<int>, y: array<int>, unique: array<bool>)
    requires n >= 1 && x.Length == y.Length == unique.Length == n && x != y
    requires forall i :: 0 <= i < n ==> x[i] == -1 && unique[i]
    requires forall j :: 0 <= j < n ==> 0 <= y[j] < n
    modifies x, y, unique
    ensures Matched(n, x[..], y[..])
    ensures forall j :: 0 <= j < n ==> y[j] == -1 || y[j] == old(y[j])
    ensures forall j :: 0 <= j < n && y[j] < 0 ==> j < x[old(y[j])] < n && !unique[old(y[j])]
    ensures forall i :: 0 <= i < n ==> x[i] == -1 || (0 <= x[i] < n && y[x[i]] == i)
    ensures forall i :: 0 <= i < n && !unique[i] ==> exists j :: 0 <= j < n && y[j] < 0 && old(y[j]) == i
  {
    ghost var y0 := y[..];
    var j := n;
    while j > 0
      invariant 0 <= j <= n
      invariant forall k :: 0 <= k < j ==> y[k] == y0[k]
      invariant forall k :: j <= k < n ==> y[k] == -1 || (y[k] == y0[k] && x[y0[k]] == k)
      invariant forall k :: j <= k < n && y[k] < 0 ==> k < x[y0[k]] < n && !unique[y0[k]]
      invariant forall i :: 0 <= i < n ==> x[i] == -1 || (j <= x[i] < n && y[x[i]] == i)
      invariant forall i :: 0 <= i < n && !unique[i] ==> exists k :: j <= k < n && y[k] < 0 && y0[k] == i
    {
      j := j - 1;
      var i := y[j];
      if x[i] < 0 {
        x[i] := j;
      } else {
        unique[i] := false;
        y[j] := -1;
      }
    }
  }

  /** The least reduced cost of row `i` outside column `j`, capped by LARGE. */
  method LeastElsewhere(n: nat, cost: Matrix, i: int, j: int, v: array<real>) returns (mn: real)
    requires Square(cost, n) && v.Length == n && 0 <= i < n && 0 <= j < n
    ensures mn <= LARGE
    ensures forall k :: 0 <= k < n && k != j ==> mn <= Red(cost, v[..], i, k)
    ensures mn == LARGE || exists k :: 0 <= k < n && k != j && mn == Red(cost, v[..], i, k)
  {
    mn := LARGE;
    for k := 0 to n
      invariant mn <= LARGE
      invariant forall m :: 0 <= m < k && m != j ==> mn <= Red(cost, v[..], i, m)
      invariant mn == LARGE || exists m :: 0 <= m < k && m != j && mn == Red(cost, v[..], i, m)
    {
      if k == j {
        continue;
      }
      var c := cost[i][k] - v[k];
      assert c == Red(cost, v[..], i, k);
      if c < mn {
        mn := c;
      }
    }
  }

  /** Prices never above a column's least cost, exact on the columns still to be reduced. */
  ghost predicate BelowCosts(cost: Matrix, n: nat, y: seq<int>, v: seq<real>, next: int)
    requires Square(cost, n) && |y| == n && |v| == n
  {
    && (forall i, k :: 0 <= i < n && 0 <= k < n ==> v[k] <= cost[i][k])
    && (forall k :: 0 <= k < n && 0 <= next <= y[k] < n ==> v[k] == cost[y[k]][k])
  }

  /** Lowers the price of column `j` until the runner-up of its row ties with it. */
  method Transfer(n: nat, cost: Matrix, j: int, x: array<int>, y: array<int>, v: array<real>, ghost lo: real,
                  ghost hi: real)
    requires Square(cost, n) && InRange(cost, n, lo, hi) && x.Length == y.Length == v.Length == n
    requires Matched(n, x[..], y[..]) && 0 <= j < n && y[j] >= 0
    requires Slack(cost, n, y[..], v[..]) && BelowCosts(cost, n, y[..], v[..], y[j])
    requires PricesHigh(cost, n, y[..], v[..], lo, hi)
    modifies v
    ensures Slack(cost, n, y[..], v[..]) && BelowCosts(cost, n, y[..], v[..], y[j] + 1)
    ensures PricesHigh(cost, n, y[..], v[..], lo, hi)
    ensures forall k :: 0 <= k < n && k != j ==> v[k] == old(v[k])
    ensures Red(cost, v[..], y[j], j) <= LARGE
    ensures Red(cost, v[..], y[j], j) == LARGE
            || exists k :: 0 <= k < n && k != j && Red(cost, v[..], y[j], k) == Red(cost, v[..], y[j], j)
  {
    var mn := LeastElsewhere(n, cost, y[j], j, v);
    ghost var before := v[..];
    v[j] := v[j] - mn;
    assert v[..] == before[j := before[j] - mn];
    TransferStep(cost, n, x[..], y[..], before, v[..], j, mn, lo, hi);
    assert Red(cost, v[..], y[j], j) == mn;
    assert forall k :: 0 <= k < n && k != j ==> Red(cost, v[..], y[j], k) == Red(cost, before, y[j], k);
  }

  /** The price of column `k` when row `i` had its turn: final if its owner had come before. */
  ghost function PriceThen(y: seq<int>, before: seq<real>, v: seq<real>, i: int, k: int): real
    requires 0 <= k < |y| && |y| == |before| == |v|
  {
    if 0 <= y[k] < i then v[k] else before[k]
  }

  /** The reduced cost of row `i` in its column `j` is its least one elsewhere at that time, capped by LARGE. */
  ghost predicate TiesWithRunnerUp(cost: Matrix, n: nat, y: seq<int>, before: seq<real>, v: seq<real>, i: int, j: int)
    requires Square(cost, n) && |y| == |before| == |v| == n && 0 <= i < n && 0 <= j < n
  {
    && Red(cost, v, i, j) <= LARGE
    && (forall k :: 0 <= k < n && k != j ==> Red(cost, v, i, j) <= cost[i][k] - PriceThen(y, before, v, i, k))
    && (Red(cost, v, i, j) == LARGE ||
        exists k :: 0 <= k < n && k != j && Red(cost, v, i, j) == cost[i][k] - PriceThen(y, before, v, i, k))
  }

  /** A row chosen exactly once has transferred its reduction, other rows have left their prices alone. */
  ghost predicate Transferred(cost: Matrix, n: nat, x: seq<int>, y: seq<int>, unique: seq<bool>, before: seq<real>,
                              v: seq<real>, i: int)
    requires Square(cost, n) && |x| == |y| == |unique| == |before| == |v| == n && 0 <= i < n
  {
    0 <= x[i] < n ==> if unique[i] then TiesWithRunnerUp(cost, n, y, before, v, i, x[i]) else v[x[i]] == before[x[i]]
  }

  /** Prices of columns whose owners are still to come, or that have none, are as before. */
  ghost predicate UntouchedFrom(y: seq<int>, before: seq<real>, v: seq<real>, i: int)
    requires |y| == |before| == |v|
  {
    forall k :: 0 <= k < |y| && !(0 <= y[k] < i) ==> v[k] == before[k]
  }

  /** A price change by row `i` does not affect the rows before it. */
  lemma StaysTransferred(cost: Matrix, n: nat, x: seq<int>, y: seq<int>, unique: seq<bool>, before: seq<real>,
                         mid: seq<real>, v: seq<real>, i: int, r: int)
    requires Square(cost, n) && |unique| == |before| == |mid| == |v| == n && 0 <= r < i < n && Matched(n, x, y)
    requires 0 <= x[r] < n ==> y[x[r]] == r
    requires Transferred(cost, n, x, y, unique, before, mid, r)
    requires forall k :: 0 <= k < n && y[k] != i ==> v[k] == mid[k]
    ensures Transferred(cost, n, x, y, unique, before, v, r)
  {
    assert forall k :: 0 <= k < n ==> PriceThen(y, before, v, r, k) == PriceThen(y, before, mid, r, k);
  }

  lemma NowTransferred(cost: Matrix, n: nat, x: seq<int>, y: seq<int>, unique: seq<bool>, before: seq<real>,
                       mid: seq<real>, v: seq<real>, i: int)
    requires Square(cost, n) && |unique| == |before| == |mid| == |v| == n && 0 <= i < n && Matched(n, x, y)
    requires 0 <= x[i] < n && y[x[i]] == i && unique[i] && UntouchedFrom(y, before, mid, i)
    requires forall k :: 0 <= k < n && k != x[i] ==> v[k] == mid[k]
    requires Tight(cost, n, v, i, x[i]) && Red(cost, v, i, x[i]) <= LARGE
    requires Red(cost, v, i, x[i]) == LARGE ||
             exists k :: 0 <= k < n && k != x[i] && Red(cost, v, i, k) == Red(cost, v, i, x[i])
    ensures Transferred(cost, n, x, y, unique, before, v, i) && UntouchedFrom(y, before, v, i + 1)
  {
    forall k | 0 <= k < n && k != x[i]
      ensures cost[i][k] - PriceThen(y, before, v, i, k) == Red(cost, v, i, k)
    {
      assert y[k] != i;
    }
  }

  /** The rows below `i` have had their turn. */
  ghost predicate TransferredBelow(cost: Matrix, n: nat, x: seq<int>, y: seq<int>, unique: seq<bool>, before: seq<real>,
                                   v: seq<real>, i: int)
    requires Square(cost, n) && |x| == |y| == |unique| == |before| == |v| == n && 0 <= i <= n
  {
    && UntouchedFrom(y, before, v, i)
    && forall r {:trigger Transferred(cost, n, x, y, unique, before, v, r)} ::
         0 <= r < i ==> Transferred(cost, n, x, y, unique, before, v, r)
  }

  lemma OneMoreTransferred(cost: Matrix, n: nat, x: seq<int>, y: seq<int>, unique: seq<bool>, before: seq<real>,
                           mid: seq<real>, v: seq<real>, i: int)
    requires Square(cost, n) && |unique| == |before| == |mid| == |v| == n && 0 <= i < n && Matched(n, x, y)
    requires forall r :: 0 <= r < n ==> x[r] == -1 || (0 <= x[r] < n && y[x[r]] == r)
    requires TransferredBelow(cost, n, x, y, unique, before, mid, i)
    requires if x[i] >= 0 && unique[i] then
               && (forall k :: 0 <= k < n && k != x[i] ==> v[k] == mid[k])
               && Tight(cost, n, v, i, x[i]) && Red(cost, v, i, x[i]) <= LARGE
               && (Red(cost, v, i, x[i]) == LARGE ||
                   exists k :: 0 <= k < n && k != x[i] && Red(cost, v, i, k) == Red(cost, v, i, x[i]))
             else v == mid
    ensures TransferredBelow(cost, n, x, y, unique, before, v, i + 1)
  {
    forall r | 0 <= r < i
      ensures Transferred(cost, n, x, y, unique, before, v, r)
    {
      StaysTransferred(cost, n, x, y, unique, before, mid, v, i, r);
    }
    if x[i] >= 0 && unique[i] {
      NowTransferred(cost, n, x, y, unique, before, mid, v, i);
    }
  }

  /** The turn of a row with a column: only if it was chosen once does it lower the price. */
  method TransferRow(n: nat, cost: Matrix, i: int, x: array<int>, y: array<int>, v: array<real>, unique: array<bool>,
                     ghost before: seq<real>, ghost lo: real, ghost hi: real)
    requires Square(cost, n) && InRange(cost, n, lo, hi)
    requires x.Length == y.Length == v.Length == unique.Length == |before| == n && 0 <= i < n && x[i] >= 0
    requires Matched(n, x[..], y[..]) && Slack(cost, n, y[..], v[..])
    requires forall i :: 0 <= i < n ==> x[i] == -1 || (0 <= x[i] < n && y[x[i]] == i)
    requires BelowCosts(cost, n, y[..], v[..], i) && PricesHigh(cost, n, y[..], v[..], lo, hi)
    requires TransferredBelow(cost, n, x[..], y[..], unique[..], before, v[..], i)
    modifies v
    ensures Slack(cost, n, y[..], v[..])
    ensures BelowCosts(cost, n, y[..], v[..], i + 1) && PricesHigh(cost, n, y[..], v[..], lo, hi)
    ensures TransferredBelow(cost, n, x[..], y[..], unique[..], before, v[..], i + 1)
  {
    ghost var mid := v[..];
    if unique[i] {
      Transfer(n, cost, x[i], x, y, v, lo, hi);
    }
    OneMoreTransferred(cost, n, x[..], y[..], unique[..], before, mid, v[..], i);
  }

  /** Third loop: free rows are listed, and rows chosen exactly once lower the price of
      their column until its runner-up ties with it. */
  method TransferReduction(n: nat, cost: Matrix, freeRows: array<int>, x: array<int>, y: array<int>, v: array<real>,
                           unique: array<bool>, ghost lo: real, ghost hi: real)
    returns (nFree: nat)
    requires Square(cost, n) && InRange(cost, n, lo, hi)
    requires freeRows.Length == x.Length == y.Length == v.Length == unique.Length == n
    requires freeRows != x && freeRows != y && x != y
    requires Matched(n, x[..], y[..]) && Slack(cost, n, y[..], v[..])
    requires BelowCosts(cost, n, y[..], v[..], 0) && PricesHigh(cost, n, y[..], v[..], lo, hi)
    requires forall i :: 0 <= i < n ==> x[i] == -1 || (0 <= x[i] < n && y[x[i]] == i)
    modifies freeRows, v
    ensures nFree <= n
    ensures Reduced(cost, n, x[..], y[..], v[..], freeRows[..nFree])
    ensures PricesHigh(cost, n, y[..], v[..], lo, hi)
    ensures TransferredBelow(cost, n, x[..], y[..], unique[..], old(v[..]), v[..], n)
  {
    ghost var before := v[..];
    nFree := 0;
    for i := 0 to n
      invariant nFree <= i
      invariant ListedFree(n, x[..], freeRows[..nFree], i)
      invariant Slack(cost, n, y[..], v[..])
      invariant BelowCosts(cost, n, y[..], v[..], i) && PricesHigh(cost, n, y[..], v[..], lo, hi)
      invariant TransferredBelow(cost, n, x[..], y[..], unique[..], before, v[..], i)
    {
      if x[i] < 0 {
        ghost var listed := freeRows[..nFree];
        freeRows[nFree] := i;
        nFree := nFree + 1;
        assert freeRows[..nFree] == listed + [i];
        ListFreeRow(n, x[..], listed, i);
        OneMoreTransferred(cost, n, x[..], y[..], unique[..], before, v[..], v[..], i);
      } else {
        TransferRow(n, cost, i, x, y, v, unique, before, lo, hi);
      }
    }
    UnassignedAreFree(n, x[..], y[..], freeRows[..nFree]);
  }

  /** Among the first `i` rows, `free` lists once each those without a column. */
  ghost predicate ListedFree(n: nat, x: seq<int>, free: seq<int>, i: nat)
    requires |x| == n && i <= n
  {
    && (forall p :: 0 <= p < |free| ==> 0 <= free[p] < i && x[free[p]] < 0)
    && Distinct(free)
    && (forall r :: 0 <= r < i && x[r] < 0 ==> r in free)
  }

  lemma ListFreeRow(n: nat, x: seq<int>, free: seq<int>, i: nat)
    requires |x| == n && i < n && x[i] < 0 && ListedFree(n, x, free, i)
    ensures ListedFree(n, x, free + [i], i + 1)
  {
    forall r | 0 <= r < i + 1 && x[r] < 0
      ensures r in free + [i]
    {
      assert (free + [i])[|free|] == i;
      assert r < i ==> r in free;
    }
  }

  lemma UnassignedAreFree(n: nat, x: seq<int>, y: seq<int>, free: seq<int>)
    requires Matched(n, x, y) && ListedFree(n, x, free, n)
    requires forall i :: 0 <= i < n ==> x[i] == -1 || (0 <= x[i] < n && y[x[i]] == i)
    ensures FreeRows(n, free, y)
  {
    forall r | 0 <= r < n
      ensures r in free <==> r !in y
    {
      if x[r] >= 0 {
        assert y[x[r]] == r;
      }
      if r in y {
        var k :| 0 <= k < n && y[k] == r;
        assert x[y[k]] == k;
      }
    }
  }

  /** Lowering the price of column `j` so little that row `i` stays near it keeps all prices near costs. */
  lemma PriceStaysNear(cost: Matrix, n: nat, v: seq<real>, w: seq<real>, j: int, i: int, k: int, lo: real, hi: real)
    requires Square(cost, n) && |v| == n && |w| == n && 0 <= j < n && 0 <= k < n && 0 <= i < n
    requires NearCost(cost, n, v, k, lo, hi) && (k != j ==> w[k] == v[k]) && (k == j ==> Red(cost, w, i, j) <= hi - lo)
    ensures NearCost(cost, n, w, k, lo, hi)
  {
    if k != j {
      var r :| 0 <= r < n && Red(cost, v, r, k) <= hi - lo;
      assert Red(cost, w, r, k) <= hi - lo;
    }
  }

  lemma TransferStep(cost: Matrix, n: nat, x: seq<int>, y: seq<int>, v: seq<real>, w: seq<real>, j: int, mn: real,
                     lo: real, hi: real)
    requires Square(cost, n) && InRange(cost, n, lo, hi) && Matched(n, x, y) && |v| == n && |w| == n
    requires 0 <= j < n && y[j] >= 0 && w == v[j := v[j] - mn]
    requires Slack(cost, n, y, v) && BelowCosts(cost, n, y, v, y[j]) && PricesHigh(cost, n, y, v, lo, hi)
    requires forall k :: 0 <= k < n && k != j ==> mn <= Red(cost, v, y[j], k)
    requires mn == LARGE || exists k :: 0 <= k < n && k != j && mn == Red(cost, v, y[j], k)
    ensures Slack(cost, n, y, w) && BelowCosts(cost, n, y, w, y[j] + 1) && PricesHigh(cost, n, y, w, lo, hi)
  {
    assert mn >= 0.0;
    TransferKeepsSlack(cost, n, x, y, v, w, j, mn);
    forall k | 0 <= k < n && y[j] + 1 <= y[k] < n
      ensures w[k] == cost[y[k]][k]
    {
      assert x[y[k]] == k && x[y[j]] == j;
    }
    forall k | SomeFree(y) && 0 <= k < n
      ensures NearCost(cost, n, w, k, lo, hi)
    {
      var u :| 0 <= u < n && y[u] < 0;
      assert ColumnMinimum(cost, n, v, u);
      assert mn <= Red(cost, v, y[j], u) <= hi - lo;
      PriceStaysNear(cost, n, v, w, j, y[j], k, lo, hi);
    }
    forall u | 0 <= u < n && y[u] < 0
      ensures ColumnMinimum(cost, n, w, u)
    {
      assert ColumnMinimum(cost, n, v, u);
      assert w[u] == v[u];
    }
  }

  method ColumnReduction(n: nat, cost: Matrix, freeRows: array<int>, x: array<int>, y: array<int>, v: array<real>,
                         ghost lo: real, ghost hi: real)
    returns (nFree: nat)
    requires n >= 1 && Square(cost, n) && InRange(cost, n, lo, hi)
    requires freeRows.Length == x.Length == y.Length == v.Length == n
    requires freeRows != x && freeRows != y && x != y
    modifies freeRows, x, y, v
    ensures nFree <= n
    ensures Reduced(cost, n, x[..], y[..], v[..], freeRows[..nFree])
    ensures PricesHigh(cost, n, y[..], v[..], lo, hi)
  {
    ColumnMinima(n, cost, x, y, v);
    ghost var y0 := y[..];
    var unique := new bool[n](_ => true);
    assert forall j :: 0 <= j < n ==> CheapestRow(cost, n, j, n, v[j], y0[j]);
    KeepLastColumns(n, x, y, unique);
    MinimaAreReduced(cost, n, x[..], y0, y[..], v[..], lo, hi);
    nFree := TransferReduction(n, cost, freeRows, x, y, v, unique, lo, hi);
  }

  lemma MinimaAreReduced(cost: Matrix, n: nat, x: seq<int>, y0: seq<int>, y: seq<int>, v: seq<real>, lo: real, hi: real)
    requires n >= 1 && Square(cost, n) && InRange(cost, n, lo, hi)
    requires |x| == n && |y0| == n && |y| == n && |v| == n
    requires forall j :: 0 <= j < n ==> CheapestRow(cost, n, j, n, v[j], y0[j])
    requires forall j :: 0 <= j < n ==> -1 <= y[j] < n
    requires forall j :: 0 <= j < n ==> y[j] == -1 || y[j] == y0[j]
    requires forall j :: 0 <= j < n ==> 0 <= y0[j] < n
    requires forall j :: 0 <= j < n && y[j] < 0 ==> j < x[y0[j]] < n && y[x[y0[j]]] == y0[j]
    ensures Slack(cost, n, y, v)
    ensures BelowCosts(cost, n, y, v, 0)
    ensures PricesHigh(cost, n, y, v, lo, hi)
  {
    forall i, k | 0 <= i < n && 0 <= k < n
      ensures v[k] <= cost[i][k]
    {
      assert CheapestRow(cost, n, k, n, v[k], y0[k]);
    }
    forall k | 0 <= k < n && 0 <= y[k] < n
      ensures v[k] == cost[y[k]][k]
    {
      assert CheapestRow(cost, n, k, n, v[k], y0[k]);
    }
    forall k | 0 <= k < n
      ensures ColumnMinimum(cost, n, v, k) && IsCheapest(cost, n, y0[k], k) && NearCost(cost, n, v, k, lo, hi)
    {
      assert CheapestRow(cost, n, k, n, v[k], y0[k]);
      assert Red(cost, v, y0[k], k) == 0.0 && lo <= cost[0][0] <= hi;
    }
    forall u | 0 <= u < n && y[u] < 0
      ensures Rejected(cost, n, u)
    {
      var p, w := y0[u], x[y0[u]];
      assert y[w] == p == y0[w];
      assert CheapestInBoth(cost, n, p, u, w);
    }
  }

  // ---------------------------------------------------------------- augmenting row reduction

  /** The two smallest entries of a row and where they are; LARGE stands for "none yet". */
  datatype Smallest = Smallest(j1: int, v1: real, j2: int, v2: real)

  function ScanRow(r: seq<real>, k: nat): Smallest
    requires 1 <= k <= |r|
  {
    if k == 1 then Smallest(0, r[0], -1, LARGE) else
    var s := ScanRow(r, k - 1);
    var c := r[k - 1];
    if c < s.v2 then
      if c >= s.v1 then s.(j2 := k - 1, v2 := c) else Smallest(k - 1, c, s.j1, s.v1)
    else s
  }

  ghost predicate IsLeast(r: seq<real>, j: int) {
    0 <= j < |r| && forall m :: 0 <= m < |r| ==> r[j] <= r[m]
  }

  /** What the scan knows of the entries below the sentinel. */
  lemma {:induction false} ScanRowBelow(r: seq<real>, k: nat)
    requires 1 <= k <= |r|
    ensures var s := ScanRow(r, k);
      && 0 <= s.j1 < k && s.v1 == r[s.j1]
      && ((s.j2 == -1 && s.v2 == LARGE) || (0 <= s.j2 < k && s.j2 != s.j1 && s.v2 == r[s.j2]))
      && (s.v2 < s.v1 ==> s.v2 == LARGE)
      && (forall m :: 0 <= m < k && r[m] < LARGE ==> s.v1 <= r[m])
      && (forall m :: 0 <= m < k && m != s.j1 && r[m] < LARGE ==> s.v2 <= r[m])
  {
    if k > 1 {
      ScanRowBelow(r, k - 1);
    }
  }

  /** With two entries below the sentinel the scan is exact: a least entry, and a least one among the others. */
  lemma ScanRowFindsTwoSmallest(r: seq<real>, a: int, b: int)
    requires 0 <= a < |r| && 0 <= b < |r| && a != b && r[a] < LARGE && r[b] < LARGE
    ensures var s := ScanRow(r, |r|);
      && 0 <= s.j1 < |r| && s.v1 == r[s.j1] && s.v1 <= s.v2
      && (forall m :: 0 <= m < |r| ==> s.v1 <= r[m])
      && (forall m :: 0 <= m < |r| && m != s.j1 ==> s.v2 <= r[m])
      && 0 <= s.j2 < |r| && s.j2 != s.j1 && s.v2 == r[s.j2]
  {
    ScanRowBelow(r, |r|);
  }

  /** On arbitrary rows the scan finds a least entry exactly when the first entry is one,
      or some entry is below the sentinel. */
  lemma ScanRowLeastIff(r: seq<real>)
    requires |r| >= 1
    ensures IsLeast(r, ScanRow(r, |r|).j1) <==> IsLeast(r, 0) || exists m :: 0 <= m < |r| && r[m] < LARGE
  {
    ScanRowPrefix(r, |r|);
  }

  lemma {:induction false} ScanRowPrefix(r: seq<real>, k: nat)
    requires 1 <= k <= |r|
    ensures var s := ScanRow(r, k);
      && 0 <= s.j1 < k && s.v1 == r[s.j1] && s.v1 <= r[0]
      && (forall m :: 1 <= m < k && r[m] < LARGE ==> s.v1 <= r[m])
      && (s.v1 < LARGE || (s.v2 == LARGE && s.j1 == 0))
      && (s.v2 < s.v1 ==> s.v2 == LARGE && s.j1 == 0)
  {
    if k > 1 {
      ScanRowPrefix(r, k - 1);
    }
  }

  /** Reduced costs of row `i`. */
  ghost function ReducedRow(cost: Matrix, n: nat, v: seq<real>, i: int): (r: seq<real>)
    requires Square(cost, n) && |v| == n && 0 <= i < n
  {
    seq(n, j requires 0 <= j < n => Red(cost, v, i, j))
  }

  /** Costs below the sentinel, but farther apart than it. */
  const APART: Matrix := [[750000.0, 0.0], [-750000.0, -1000000.0]]

  /** Both columns choose the second row and are priced at its costs. The scan of the first row then meets no entry
      below the sentinel and passes its least one over; the row takes the column that leaves the dearer assignment. */
  lemma ScanRowMisses()
    ensures var v := [-750000.0, -1000000.0];
      && ColumnMinimum(APART, 2, v, 0) && ColumnMinimum(APART, 2, v, 1) && CheapestInBoth(APART, 2, 1, 0, 1)
      && var r := ReducedRow(APART, 2, v, 0); ScanRow(r, 2).j1 == 0 && !IsLeast(r, 0) && IsLeast(r, 1)
    ensures Cost(APART, [1, 0], 2) < Cost(APART, [0, 1], 2)
  {
    var v := [-750000.0, -1000000.0];
    var r := ReducedRow(APART, 2, v, 0);
    assert v[0] == APART[1][0] && v[1] == APART[1][1];
    assert ScanRow(r, 1) == Smallest(0, r[0], -1, LARGE);
    assert r[1] < r[0];
    assert Cost(APART, [1, 0], 1) == 0.0 && Cost(APART, [0, 1], 1) == 750000.0;
  }

  /** Row `i` would be served just as cheaply by a column other than `j`. */
  ghost predicate HasRival(cost: Matrix, n: nat, v: seq<real>, i: int, j: int)
    requires Square(cost, n) && |v| == n && 0 <= i < n && 0 <= j < n
  {
    exists k :: 0 <= k < n && k != j && Red(cost, v, i, k) == Red(cost, v, i, j)
  }

  /** While a row is free, two of its reduced costs are no larger than the costs lie apart: that of a
      column never assigned, and another one. So the sentinel is never taken for one of the two smallest. */
  lemma TwoReducedCostsBelowLarge(cost: Matrix, n: nat, x: seq<int>, y: seq<int>, v: seq<real>, i: int, lo: real,
                                  hi: real)
    returns (u: int, t: int)
    requires Square(cost, n) && InRange(cost, n, lo, hi) && Matched(n, x, y) && |v| == n && Slack(cost, n, y, v)
    requires PricesHigh(cost, n, y, v, lo, hi) && 0 <= i < n && i !in y
    ensures 0 <= u < n && 0 <= t < n && u != t && y[u] < 0
    ensures Red(cost, v, i, u) <= hi - lo < LARGE && Red(cost, v, i, t) <= hi - lo
  {
    u := FreeColumn(n, x, y, i);
    assert ColumnMinimum(cost, n, v, u) && Rejected(cost, n, u);
    if t' :| 0 <= t' < n && t' != u && v[t'] >= lo {
      t := t';
    } else {
      var p, w :| CheapestInBoth(cost, n, p, u, w);
      RejectingRowIsFree(cost, n, y, v, lo, hi, p, u);
      if p != i {
        t := TwoFreeColumns(n, x, y, i, p, u);
        assert ColumnMinimum(cost, n, v, t);
      } else {
        t := w;
        assert NearCost(cost, n, v, w, lo, hi);
      }
    }
  }

  /** If all other prices are below all costs, a row that is cheapest for the free column `u` is free. */
  lemma RejectingRowIsFree(cost: Matrix, n: nat, y: seq<int>, v: seq<real>, lo: real, hi: real, p: int, u: int)
    requires Square(cost, n) && InRange(cost, n, lo, hi) && |y| == n && |v| == n
    requires forall j :: 0 <= j < n ==> -1 <= y[j] < n
    requires Slack(cost, n, y, v) && 0 <= p < n && 0 <= u < n && y[u] < 0
    requires ColumnMinimum(cost, n, v, u) && IsCheapest(cost, n, p, u)
    requires forall t :: 0 <= t < n && t != u ==> v[t] < lo
    ensures p !in y
  {
    assert Red(cost, v, p, u) == 0.0;
    forall j | 0 <= j < n
      ensures y[j] != p
    {
      if j != u {
        assert Red(cost, v, p, j) > 0.0;
        assert y[j] >= 0 ==> Tight(cost, n, v, y[j], j);
      }
    }
  }

  /** The decision taken for a free row `i`: which column it takes, and at what price. */
  lemma RowStep(cost: Matrix, n: nat, x: seq<int>, y: seq<int>, v: seq<real>, w: seq<real>, i: int, inBudget: bool,
                j: int, lo: real, hi: real)
    requires Square(cost, n) && InRange(cost, n, lo, hi) && Matched(n, x, y) && |v| == n && |w| == n
    requires Slack(cost, n, y, v) && PricesHigh(cost, n, y, v, lo, hi)
    requires 0 <= i < n && i !in y && n >= 1
    requires Chosen(cost, n, y, v, i, inBudget, j, w)
    ensures 0 <= j < n && Slack(cost, n, y[j := i], w) && PricesHigh(cost, n, y[j := i], w, lo, hi)
    ensures Tight(cost, n, w, i, j)
    ensures inBudget ==> HasRival(cost, n, w, i, j)
  {
    var r := ReducedRow(cost, n, v, i);
    var s := ScanRow(r, n);
    var u, t := TwoReducedCostsBelowLarge(cost, n, x, y, v, i, lo, hi);
    ScanRowFindsTwoSmallest(r, u, t);
    assert forall k :: 0 <= k < n ==> r[k] == Red(cost, v, i, k);
    forall k | 0 <= k < n
      ensures Red(cost, w, i, j) <= Red(cost, w, i, k)
    {
      assert r[k] == Red(cost, v, i, k);
    }
    if inBudget {
      var rival := if j == s.j1 then s.j2 else s.j1;
      assert r[rival] == Red(cost, v, i, rival) && Red(cost, w, i, rival) == Red(cost, w, i, j);
    }
    AssignKeepsSlack(cost, n, y, v, w, i, j);
    var y' := y[j := i];
    forall t | 0 <= t < n && y'[t] < 0
      ensures ColumnMinimum(cost, n, w, t) && Rejected(cost, n, t)
    {
      assert ColumnMinimum(cost, n, v, t);
    }
    assert s.v2 <= hi - lo;
    assert SomeFree(y);
    forall k | 0 <= k < n
      ensures NearCost(cost, n, w, k, lo, hi)
    {
      PriceStaysNear(cost, n, v, w, j, i, k, lo, hi);
    }
  }

  lemma Times(a: nat, b: nat, n: nat)
    requires a <= b
    ensures a * n <= b * n
    ensures b * n + b == b * (n + 1)
  {
  }

  method AugmentingRowReduction(n: nat, cost: Matrix, nFree: nat, freeRows: array<int>, x: array<int>, y: array<int>,
                                v: array<real>, ghost lo: real, ghost hi: real)
    returns (newFree: nat, ghost rounds: nat)
    requires n >= 1 && Square(cost, n) && InRange(cost, n, lo, hi)
    requires freeRows.Length == x.Length == y.Length == v.Length == n && nFree <= n
    requires freeRows != x && freeRows != y && x != y
    requires Reduced(cost, n, x[..], y[..], v[..], freeRows[..nFree])
    requires PricesHigh(cost, n, y[..], v[..], lo, hi)
    modifies freeRows, x, y, v
    ensures newFree <= nFree && rounds <= nFree * (n + 1)
    ensures Reduced(cost, n, x[..], y[..], v[..], freeRows[..newFree])
    ensures PricesHigh(cost, n, y[..], v[..], lo, hi)
  {
    var current, rrCnt := 0, 0;
    ghost var budget := nFree * n;
    Times(nFree, nFree, n);
    newFree := 0;
    while current < nFree
      invariant newFree <= current <= nFree
      invariant Reduced(cost, n, x[..], y[..], v[..], freeRows[..newFree] + freeRows[current..nFree])
      invariant PricesHigh(cost, n, y[..], v[..], lo, hi)
      invariant rrCnt <= budget + current
      decreases nFree - current, budget - rrCnt
    {
      rrCnt := rrCnt + 1;
      ghost var spent := (current + 1) * n;
      Times(current + 1, nFree, n);
      newFree, current := SoundRound(n, cost, nFree, freeRows, x, y, v, newFree, current, rrCnt, spent, lo, hi);
    }
    assert freeRows[..newFree] + freeRows[nFree..nFree] == freeRows[..newFree];
    rounds := rrCnt;
  }

  method TwoSmallest(n: nat, cost: Matrix, i: int, v: array<real>) returns (j1: int, v1: real, j2: int, v2: real)
    requires n >= 1 && Square(cost, n) && v.Length == n && 0 <= i < n
    ensures Smallest(j1, v1, j2, v2) == ScanRow(ReducedRow(cost, n, v[..], i), n)
  {
    j1, v1, j2, v2 := 0, cost[i][0] - v[0], -1, LARGE;
    for j := 1 to n
      invariant Smallest(j1, v1, j2, v2) == ScanRow(ReducedRow(cost, n, v[..], i), j)
    {
      var c := cost[i][j] - v[j];
      if c < v2 {
        if c >= v1 {
          v2, j2 := c, j;
        } else {
          v2, v1, j2, j1 := v1, c, j1, j;
        }
      }
    }
  }

  /** Where a row that lost its column waits: in the slot just read, to be taken next, or
      at the end of the list kept for the next pass. No unread slot is overwritten. */
  method Requeue(nFree: nat, freeRows: array<int>, i0: int, front: bool, newFree0: nat, current0: nat)
    returns (newFree: nat, current: nat)
    requires newFree0 < current0 <= nFree <= freeRows.Length
    modifies freeRows
    ensures newFree <= current <= nFree
    ensures freeRows[..newFree] + freeRows[current..nFree]
            == old(freeRows[..newFree0]) + (if i0 < 0 then [] else [i0]) + old(freeRows[current0..nFree])
    ensures current == if i0 >= 0 && front then current0 - 1 else current0
    ensures newFree == if i0 >= 0 && !front then newFree0 + 1 else newFree0
  {
    newFree, current := newFree0, current0;
    if i0 >= 0 {
      if front {
        current := current - 1;
        freeRows[current] := i0;
      } else {
        freeRows[newFree] := i0;
        newFree := newFree + 1;
      }
    }
  }

  /** What one round decides for row `i`: the column `j` it takes and the prices `w` it leaves. */
  ghost predicate Chosen(cost: Matrix, n: nat, y: seq<int>, v: seq<real>, i: int, inBudget: bool, j: int, w: seq<real>)
    requires n >= 1 && Square(cost, n) && |y| == n && |v| == n && 0 <= i < n
  {
    var s := ScanRow(ReducedRow(cost, n, v, i), n);
    && 0 <= s.j1 < n && -1 <= s.j2 < n
    && (if inBudget && s.v2 > s.v1 then j == s.j1 && w == v[j := v[j] - (s.v2 - s.v1)]
        else w == v && j == if inBudget && y[s.j1] >= 0 && s.j2 >= 0 then s.j2 else s.j1)
  }

  /** One round: the free row at `current` takes the column it likes best. A row thrown out
      is queued again in front (a price fell and the budget is not spent) or kept for the next pass. */
  method ReduceRow(n: nat, cost: Matrix, nFree: nat, freeRows: array<int>, x: array<int>, y: array<int>, v: array<real>,
                   newFree0: nat, current0: nat, rrCnt: nat)
    returns (newFree: nat, current: nat, ghost j: int)
    requires n >= 1 && Square(cost, n)
    requires freeRows.Length == x.Length == y.Length == v.Length == n
    requires freeRows != x && freeRows != y && x != y
    requires newFree0 <= current0 < nFree <= n && 0 <= freeRows[current0] < n
    requires var s := ScanRow(ReducedRow(cost, n, v[..], freeRows[current0]), n);
      0 <= s.j1 < n && -1 <= s.j2 < n
    modifies freeRows, x, y, v
    ensures newFree <= current <= nFree && 0 <= j < n
    ensures var i := old(freeRows[current0]);
      && x[..] == old(x[..])[i := j] && y[..] == old(y[..])[j := i]
      && Chosen(cost, n, old(y[..]), old(v[..]), i, rrCnt < (current0 + 1) * n, j, v[..])
    ensures freeRows[..newFree] + freeRows[current..nFree]
            == old(freeRows[..newFree0]) + (if old(y[j]) < 0 then [] else [old(y[j])])
            + old(freeRows[current0 + 1..nFree])
    ensures if old(y[j]) >= 0 && rrCnt < (current0 + 1) * n && v[..] != old(v[..])
            then current == current0 && newFree == newFree0
            else current == current0 + 1 && newFree == if old(y[j]) >= 0 then newFree0 + 1 else newFree0
  {
    var freeI, current1 := freeRows[current0], current0 + 1;
    ghost var v0 := v[..];
    var j1, v1, j2, v2 := TwoSmallest(n, cost, freeI, v);
    var i0 := y[j1];
    var v1New := v[j1] - (v2 - v1);
    var v1Lowers := v1New < v[j1];
    var inBudget := rrCnt < current1 * n;
    if inBudget {
      if v1Lowers {
        v[j1] := v1New;
      } else if i0 >= 0 && j2 >= 0 {
        j1 := j2;
        i0 := y[j2];
      }
    }
    assert inBudget && v1Lowers ==> v[..] == v0[j1 := v1New] && v[..][j1] != v0[j1];
    assert !(inBudget && v1Lowers) ==> v[..] == v0;
    newFree, current := Requeue(nFree, freeRows, i0, inBudget && v1Lowers, newFree0, current1);
    x[freeI] := j1;
    y[j1] := freeI;
    j := j1;
  }

  /** A round keeps every assigned row tight and the free list exact, and leaves the row it
      placed with a rival column as long as the budget lasts. */
  lemma RowPlaced(cost: Matrix, n: nat, x: seq<int>, y: seq<int>, v: seq<real>, w: seq<real>, kept: seq<int>,
                  waiting: seq<int>, i: int, inBudget: bool, j: int, lo: real, hi: real)
    requires n >= 1 && Square(cost, n) && InRange(cost, n, lo, hi) && |w| == n
    requires Reduced(cost, n, x, y, v, kept + [i] + waiting) && PricesHigh(cost, n, y, v, lo, hi)
    requires 0 <= i < n && Chosen(cost, n, y, v, i, inBudget, j, w)
    ensures 0 <= j < n
    ensures Reduced(cost, n, x[i := j], y[j := i], w, kept + (if y[j] < 0 then [] else [y[j]]) + waiting)
    ensures PricesHigh(cost, n, y[j := i], w, lo, hi)
    ensures Tight(cost, n, w, i, j)
    ensures inBudget ==> HasRival(cost, n, w, i, j)
  {
    assert (kept + [i] + waiting)[|kept|] == i;
    RowStep(cost, n, x, y, v, w, i, inBudget, j, lo, hi);
    AssignKeepsMatched(n, x, y, i, j);
    AssignKeepsFreeRows(n, x, y, kept, waiting, i, j);
  }

  /** A round that starts from a sound state ends in one. */
  method SoundRound(n: nat, cost: Matrix, nFree: nat, freeRows: array<int>, x: array<int>, y: array<int>,
                    v: array<real>, newFree0: nat, current0: nat, rrCnt: nat, ghost spent: nat, ghost lo: real,
                    ghost hi: real)
    returns (newFree: nat, current: nat)
    requires n >= 1 && Square(cost, n) && InRange(cost, n, lo, hi)
    requires freeRows.Length == x.Length == y.Length == v.Length == n
    requires freeRows != x && freeRows != y && x != y
    requires newFree0 <= current0 < nFree <= n && spent == (current0 + 1) * n
    requires Reduced(cost, n, x[..], y[..], v[..], freeRows[..newFree0] + freeRows[current0..nFree])
    requires PricesHigh(cost, n, y[..], v[..], lo, hi)
    modifies freeRows, x, y, v
    ensures newFree <= current <= nFree
    ensures Reduced(cost, n, x[..], y[..], v[..], freeRows[..newFree] + freeRows[current..nFree])
    ensures PricesHigh(cost, n, y[..], v[..], lo, hi)
    ensures current == current0 + 1 || (current == current0 && rrCnt < spent)
  {
    ghost var x0, y0, v0, i := x[..], y[..], v[..], freeRows[current0];
    ghost var inBudget := rrCnt < (current0 + 1) * n;
    ghost var kept, waiting := freeRows[..newFree0], freeRows[current0 + 1..nFree];
    assert freeRows[current0..nFree] == [i] + waiting;
    assert kept + freeRows[current0..nFree] == kept + [i] + waiting;
    ScanWithinRow(cost, n, x0, y0, v0, kept, waiting, i, lo, hi);
    ghost var j;
    newFree, current, j := ReduceRow(n, cost, nFree, freeRows, x, y, v, newFree0, current0, rrCnt);
    RowPlaced(cost, n, x0, y0, v0, v[..], kept, waiting, i, inBudget, j, lo, hi);
  }

  lemma ScanWithinRow(cost: Matrix, n: nat, x: seq<int>, y: seq<int>, v: seq<real>, kept: seq<int>, waiting: seq<int>,
                      i: int, lo: real, hi: real)
    requires n >= 1 && Square(cost, n) && InRange(cost, n, lo, hi)
    requires Reduced(cost, n, x, y, v, kept + [i] + waiting) && PricesHigh(cost, n, y, v, lo, hi)
    ensures 0 <= i < n
    ensures var s := ScanRow(ReducedRow(cost, n, v, i), n);
      0 <= s.j1 < n && -1 <= s.j2 < n && s.v1 <= s.v2
  {
    assert (kept + [i] + waiting)[|kept|] == i;
    var u, t := TwoReducedCostsBelowLarge(cost, n, x, y, v, i, lo, hi);
    ScanRowFindsTwoSmallest(ReducedRow(cost, n, v, i), u, t);
  }
}
