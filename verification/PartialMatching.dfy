/** Thresholded partial matching: the rectangular cost matrix is padded to a square one,
    solved, and decoded. The padding is chosen so that a least-cost permutation decodes to
    a partial matching that minimises the sum of (cost - limit) over its pairs.
 */
module PartialMatching {
  import opened Assignment

  /** `m[i]` is the column matched to row `i`, or -1. */
  ghost predicate IsPartial(m: seq<int>, rows: nat, cols: nat) {
    && |m| == rows
    && (forall i :: 0 <= i < rows ==> -1 <= m[i] < cols)
    && (forall i, k :: 0 <= i < k < rows && m[i] >= 0 ==> m[i] != m[k])
  }

  /** `w` is `m` seen from the columns. */
  ghost predicate IsInverse(m: seq<int>, w: seq<int>, rows: nat, cols: nat) {
    && IsPartial(m, rows, cols) && IsPartial(w, cols, rows)
    && (forall i :: 0 <= i < rows && m[i] >= 0 ==> w[m[i]] == i)
    && (forall j :: 0 <= j < cols && w[j] >= 0 ==> m[w[j]] == j)
  }

  /** Sum of (cost - limit) over the pairs of the first `k` rows. */
  ghost function Gain(cost: Matrix, m: seq<int>, limit: real, k: nat): real
    requires k <= |m| && k <= |cost|
    requires forall i :: 0 <= i < k && m[i] >= 0 ==> m[i] < |cost[i]|
  {
    if k == 0 then 0.0
    else Gain(cost, m, limit, k - 1) + if m[k - 1] >= 0 then cost[k - 1][m[k - 1]] - limit else 0.0
  }

  ghost predicate IsBest(cost: Matrix, m: seq<int>, limit: real, rows: nat, cols: nat)
    requires Shape(cost, rows, cols)
  {
    && IsPartial(m, rows, cols)
    && forall q :: IsPartial(q, rows, cols) ==> Gain(cost, m, limit, rows) <= Gain(cost, q, limit, rows)
  }

  // ---------------------------------------------------------------- padding

  /** The padded matrix: the costs, `fill` beside and below them, zero in the corner. */
  ghost predicate Padded(cost: Matrix, rows: nat, cols: nat, fill: real, e: Matrix)
    requires Shape(cost, rows, cols)
  {
    && Square(e, rows + cols)
    && forall i, j :: 0 <= i < rows + cols && 0 <= j < rows + cols ==>
         e[i][j] == if i < rows && j < cols then cost[i][j] else if i >= rows && j >= cols then 0.0 else fill
  }

  /** A permutation of the padded problem read as a partial matching. */
  ghost function Decode(p: seq<int>, rows: nat, cols: nat): (m: seq<int>)
    requires rows <= |p|
  {
    seq(rows, i requires 0 <= i < rows => if p[i] < cols then p[i] else -1)
  }

  /** Prices that every permutation pays in full and that make the padding free. */
  ghost function FillPrices(rows: nat, cols: nat, fill: real): seq<real> {
    seq(rows + cols, j => if j < cols then fill else 0.0)
  }

  lemma DecodeIsPartial(p: seq<int>, rows: nat, cols: nat)
    requires IsPermutation(p, rows + cols)
    ensures IsPartial(Decode(p, rows, cols), rows, cols)
  {
  }

  ghost function Repeat(x: real, k: nat): real {
    if k == 0 then 0.0 else Repeat(x, k - 1) + x
  }

  /** What every permutation of the padded problem pays on top of the gain it decodes to. */
  ghost function PaddingTotal(rows: nat, cols: nat, fill: real): real {
    Sum(FillPrices(rows, cols, fill)) + Repeat(fill, rows)
  }

  lemma {:induction false} PaddedCostPrefix(cost: Matrix, rows: nat, cols: nat, fill: real, e: Matrix, v: seq<real>,
                                            p: seq<int>, m: seq<int>, k: nat)
    requires Shape(cost, rows, cols) && Padded(cost, rows, cols, fill, e) && k <= rows + cols
    requires |p| == rows + cols && forall i :: 0 <= i < rows + cols ==> 0 <= p[i] < rows + cols
    requires |v| == rows + cols && forall j :: 0 <= j < rows + cols ==> v[j] == if j < cols then fill else 0.0
    requires |m| == rows && forall i :: 0 <= i < rows ==> m[i] == if p[i] < cols then p[i] else -1
    ensures Cost(e, p, k) - PriceOf(v, p, k)
            == var r := if k < rows then k else rows; Gain(cost, m, 2.0 * fill, r) + Repeat(fill, r)
  {
    if k > 0 {
      PaddedCostPrefix(cost, rows, cols, fill, e, v, p, m, k - 1);
    }
  }

  /** Cost of a permutation of the padded problem: the gain of what it decodes to, plus a constant. */
  lemma PaddedCost(cost: Matrix, rows: nat, cols: nat, fill: real, e: Matrix, p: seq<int>)
    requires Shape(cost, rows, cols) && Padded(cost, rows, cols, fill, e) && IsPermutation(p, rows + cols)
    ensures var m := Decode(p, rows, cols);
      && IsPartial(m, rows, cols)
      && Cost(e, p, rows + cols) == Gain(cost, m, 2.0 * fill, rows) + PaddingTotal(rows, cols, fill)
  {
    var v := FillPrices(rows, cols, fill);
    DecodeIsPartial(p, rows, cols);
    PaddedCostPrefix(cost, rows, cols, fill, e, v, p, Decode(p, rows, cols), rows + cols);
    PriceOfPermutation(v, p, rows + cols);
  }

  /** The row matched to column `j`, or -1. */
  ghost function Owner(m: seq<int>, j: int): (i: int)
    ensures -1 <= i < |m|
    ensures i >= 0 ==> m[i] == j
    ensures i == -1 ==> forall k :: 0 <= k < |m| ==> m[k] != j
  {
    if k :| 0 <= k < |m| && m[k] == j then k else -1
  }

  /** Extends a partial matching to a permutation of the padded problem. */
  ghost function Complete(m: seq<int>, rows: nat, cols: nat): (p: seq<int>)
    requires IsPartial(m, rows, cols)
  {
    seq(rows + cols, i requires 0 <= i < rows + cols =>
      if i < rows then (if m[i] >= 0 then m[i] else cols + i)
      else if Owner(m, i - rows) >= 0 then cols + Owner(m, i - rows) else i - rows)
  }

  lemma CompleteAt(m: seq<int>, rows: nat, cols: nat, a: int)
    requires IsPartial(m, rows, cols) && 0 <= a < rows + cols
    ensures var p := Complete(m, rows, cols)[a];
      && 0 <= p < rows + cols
      && (a < rows ==> p == if m[a] >= 0 then m[a] else cols + a)
      && (a >= rows ==> (p < cols && p == a - rows && p !in m)
                        || (p >= cols && 0 <= p - cols < rows && m[p - cols] == a - rows))
  {
    if a >= rows {
      var o := Owner(m, a - rows);
    }
  }

  lemma CompleteIsPermutation(m: seq<int>, rows: nat, cols: nat)
    requires IsPartial(m, rows, cols)
    ensures IsPermutation(Complete(m, rows, cols), rows + cols)
    ensures Decode(Complete(m, rows, cols), rows, cols) == m
  {
    var p := Complete(m, rows, cols);
    forall a | 0 <= a < rows + cols
      ensures 0 <= p[a] < rows + cols
    {
      CompleteAt(m, rows, cols, a);
    }
    forall a, b | 0 <= a < b < rows + cols
      ensures p[a] != p[b]
    {
      CompleteAt(m, rows, cols, a);
      CompleteAt(m, rows, cols, b);
    }
  }

  /** A least-cost permutation of the padded problem decodes to a best partial matching. */
  lemma DecodeIsBest(cost: Matrix, rows: nat, cols: nat, fill: real, e: Matrix, p: seq<int>)
    requires Shape(cost, rows, cols) && Padded(cost, rows, cols, fill, e) && IsOptimal(e, p, rows + cols)
    ensures IsBest(cost, Decode(p, rows, cols), 2.0 * fill, rows, cols)
  {
    PaddedCost(cost, rows, cols, fill, e, p);
    forall q | IsPartial(q, rows, cols)
      ensures Gain(cost, Decode(p, rows, cols), 2.0 * fill, rows) <= Gain(cost, q, 2.0 * fill, rows)
    {
      CompleteIsPermutation(q, rows, cols);
      PaddedCost(cost, rows, cols, fill, e, Complete(q, rows, cols));
    }
  }

  // ---------------------------------------------------------------- what best means pair by pair

  lemma {:induction false} GainUpdate(cost: Matrix, m: seq<int>, limit: real, rows: nat, cols: nat, i: int, j: int,
                                      k: nat)
    requires Shape(cost, rows, cols) && IsPartial(m, rows, cols) && 0 <= i < rows && -1 <= j < cols && k <= rows
    ensures var before := if m[i] >= 0 then cost[i][m[i]] - limit else 0.0;
      var after := if j >= 0 then cost[i][j] - limit else 0.0;
      Gain(cost, m[i := j], limit, k) == Gain(cost, m, limit, k) + if k > i then after - before else 0.0
  {
    if k > 0 {
      GainUpdate(cost, m, limit, rows, cols, i, j, k - 1);
    }
  }

  /** No matched pair costs more than the limit, and no unmatched row and column could be
      paired for less. */
  lemma BestRespectsLimit(cost: Matrix, m: seq<int>, limit: real, rows: nat, cols: nat)
    requires Shape(cost, rows, cols) && IsBest(cost, m, limit, rows, cols)
    ensures forall i :: 0 <= i < rows && m[i] >= 0 ==> cost[i][m[i]] <= limit
    ensures forall i, j :: 0 <= i < rows && 0 <= j < cols && m[i] < 0 && j !in m ==> cost[i][j] >= limit
  {
    forall i | 0 <= i < rows && m[i] >= 0
      ensures cost[i][m[i]] <= limit
    {
      assert IsPartial(m[i := -1], rows, cols);
      GainUpdate(cost, m, limit, rows, cols, i, -1, rows);
    }
    forall i, j | 0 <= i < rows && 0 <= j < cols && m[i] < 0 && j !in m
      ensures cost[i][j] >= limit
    {
      assert IsPartial(m[i := j], rows, cols);
      GainUpdate(cost, m, limit, rows, cols, i, j, rows);
    }
  }

  /** Exchanging the columns of two matched rows cannot pay off. */
  lemma BestHasNoBetterSwap(cost: Matrix, m: seq<int>, limit: real, rows: nat, cols: nat, i: int, k: int)
    requires Shape(cost, rows, cols) && IsBest(cost, m, limit, rows, cols)
    requires 0 <= i < k < rows && m[i] >= 0 && m[k] >= 0
    ensures cost[i][m[i]] + cost[k][m[k]] <= cost[i][m[k]] + cost[k][m[i]]
  {
    var dropped := m[i := -1];
    var moved := dropped[k := m[i]];
    var q := moved[i := m[k]];
    assert IsPartial(dropped, rows, cols) && IsPartial(moved, rows, cols) && IsPartial(q, rows, cols);
    GainUpdate(cost, m, limit, rows, cols, i, -1, rows);
    GainUpdate(cost, dropped, limit, rows, cols, k, m[i], rows);
    GainUpdate(cost, moved, limit, rows, cols, i, m[k], rows);
  }
}
