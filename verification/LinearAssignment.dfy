/** The tracker's wrapper around the solver: padding, solving, decoding, and the split of the
    indices into matches and unmatched rows and columns.
 */
module LinearAssignment {
  import opened Assignment
  import opened Lapjv
  import opened Solver
  import opened Options
  import opened PartialMatching

  /** Value of cost_limit that stands for "no limit": the largest signed 64-bit integer as a float. */
  const NO_LIMIT := 9223372036854775808.0

  datatype Solution = Solution(rowsol: seq<int>, colsol: seq<int>, opt: real)

  /** What lapjv writes into the two padding blocks. */
  ghost predicate IsFill(cost: Matrix, rows: nat, cols: nat, costLimit: real, fill: real)
    requires Shape(cost, rows, cols)
  {
    if costLimit < NO_LIMIT then fill == costLimit / 2.0
    else
      && fill >= 0.0
      && (forall i, j :: 0 <= i < rows && 0 <= j < cols ==> cost[i][j] + 1.0 <= fill)
      && (fill == 0.0 || exists i, j :: 0 <= i < rows && 0 <= j < cols && fill == cost[i][j] + 1.0)
  }

  method CostMax(cost: Matrix, rows: nat, cols: nat) returns (mx: real)
    requires Shape(cost, rows, cols)
    ensures IsFill(cost, rows, cols, NO_LIMIT, mx + 1.0)
  {
    mx := -1.0;
    for i := 0 to rows
      invariant mx >= -1.0
      invariant forall r, j :: 0 <= r < i && 0 <= j < cols ==> cost[r][j] <= mx
      invariant mx == -1.0 || exists r, j :: 0 <= r < rows && 0 <= j < cols && mx == cost[r][j]
    {
      for j := 0 to cols
        invariant mx >= -1.0
        invariant forall r, c :: 0 <= r < i && 0 <= c < cols ==> cost[r][c] <= mx
        invariant forall c :: 0 <= c < j ==> cost[i][c] <= mx
        invariant mx == -1.0 || exists r, c :: 0 <= r < rows && 0 <= c < cols && mx == cost[r][c]
      {
        if cost[i][j] > mx {
          mx := cost[i][j];
        }
      }
    }
  }

  /** Copies a filled buffer row by row into the matrix that the solver reads. */
  method ToMatrix(a: array2<real>, n: nat) returns (e: Matrix)
    requires a.Length0 == a.Length1 == n
    ensures Square(e, n) && forall i, j :: 0 <= i < n && 0 <= j < n ==> e[i][j] == a[i, j]
  {
    e := [];
    for i := 0 to n
      invariant |e| == i && forall r :: 0 <= r < i ==> |e[r]| == n
      invariant forall r, c :: 0 <= r < i && 0 <= c < n ==> e[r][c] == a[r, c]
    {
      var row := [];
      for j := 0 to n
        invariant |row| == j && forall c :: 0 <= c < j ==> row[c] == a[i, c]
      {
        row := row + [a[i, j]];
      }
      e := e + [row];
    }
  }

  method FillAll(a: array2<real>, fill: real)
    modifies a
    ensures forall r, c :: 0 <= r < a.Length0 && 0 <= c < a.Length1 ==> a[r, c] == fill
  {
    for i := 0 to a.Length0
      invariant forall r, c :: 0 <= r < i && 0 <= c < a.Length1 ==> a[r, c] == fill
    {
      for j := 0 to a.Length1
        invariant forall r, c :: 0 <= r < i && 0 <= c < a.Length1 ==> a[r, c] == fill
        invariant forall c :: 0 <= c < j ==> a[i, c] == fill
      {
        a[i, j] := fill;
      }
    }
  }

  method FillCorner(a: array2<real>, rows: nat, cols: nat)
    requires rows <= a.Length0 && cols <= a.Length1
    modifies a
    ensures forall r, c :: 0 <= r < a.Length0 && 0 <= c < a.Length1 ==>
      a[r, c] == if r >= rows && c >= cols then 0.0 else old(a[r, c])
  {
    for i := rows to a.Length0
      invariant forall r, c :: 0 <= r < a.Length0 && 0 <= c < a.Length1 ==>
        a[r, c] == if rows <= r < i && c >= cols then 0.0 else old(a[r, c])
    {
      for j := cols to a.Length1
        invariant forall r, c :: 0 <= r < a.Length0 && 0 <= c < a.Length1 ==>
          a[r, c] == if (rows <= r < i && c >= cols) || (r == i && cols <= c < j) then 0.0 else old(a[r, c])
      {
        a[i, j] := 0.0;
      }
    }
  }

  method CopyCosts(a: array2<real>, cost: Matrix, rows: nat, cols: nat)
    requires Shape(cost, rows, cols) && rows <= a.Length0 && cols <= a.Length1
    modifies a
    ensures forall r, c :: 0 <= r < a.Length0 && 0 <= c < a.Length1 ==>
      a[r, c] == if r < rows && c < cols then cost[r][c] else old(a[r, c])
  {
    for i := 0 to rows
      invariant forall r, c :: 0 <= r < a.Length0 && 0 <= c < a.Length1 ==>
        a[r, c] == if r < i && c < cols then cost[r][c] else old(a[r, c])
    {
      for j := 0 to cols
        invariant forall r, c :: 0 <= r < a.Length0 && 0 <= c < a.Length1 ==>
          a[r, c] == if (r < i && c < cols) || (r == i && c < j) then cost[r][c] else old(a[r, c])
      {
        a[i, j] := cost[i][j];
      }
    }
  }

  method ExtendCost(cost: Matrix, rows: nat, cols: nat, costLimit: real) returns (e: Matrix, fill: real)
    requires Shape(cost, rows, cols)
    ensures IsFill(cost, rows, cols, costLimit, fill) && Padded(cost, rows, cols, fill, e)
  {
    var a := new real[rows + cols, rows + cols];
    if costLimit < NO_LIMIT {
      fill := costLimit / 2.0;
    } else {
      var costMax := CostMax(cost, rows, cols);
      fill := costMax + 1.0;
    }
    FillAll(a, fill);
    FillCorner(a, rows, cols);
    CopyCosts(a, cost, rows, cols);
    e := ToMatrix(a, rows + cols);
  }

  /** Every matrix the solver may be given here fits below its sentinel. */
  ghost predicate Solvable(cost: Matrix, rows: nat, cols: nat, costLimit: real, lo: real, hi: real)
    requires Shape(cost, rows, cols)
  {
    && hi < LARGE && hi - lo < LARGE && lo <= 0.0 <= hi
    && (forall i, j :: 0 <= i < rows && 0 <= j < cols ==> lo <= cost[i][j] <= hi)
    && (forall fill :: IsFill(cost, rows, cols, costLimit, fill) ==> lo <= fill <= hi)
  }

  function Zeros(k: nat): (z: seq<int>) {
    seq(k, _ => 0)
  }

  /** Sends every index of a padding row or column to -1. */
  method DropPadding(x: array<int>, y: array<int>, rows: nat, cols: nat)
    requires x.Length == y.Length == rows + cols && x != y
    modifies x, y
    ensures forall i :: 0 <= i < rows + cols ==> x[i] == if old(x[i]) >= cols then -1 else old(x[i])
    ensures forall i :: 0 <= i < rows + cols ==> y[i] == if old(y[i]) >= rows then -1 else old(y[i])
  {
    for i := 0 to rows + cols
      invariant forall k :: 0 <= k < rows + cols ==> x[k] == if k < i && old(x[k]) >= cols then -1 else old(x[k])
      invariant forall k :: 0 <= k < rows + cols ==> y[k] == if k < i && old(y[k]) >= rows then -1 else old(y[k])
    {
      if x[i] >= cols {
        x[i] := -1;
      }
      if y[i] >= rows {
        y[i] := -1;
      }
    }
  }

  method TotalCost(cost: Matrix, m: seq<int>, rows: nat) returns (opt: real)
    requires |cost| >= rows == |m| && forall i :: 0 <= i < rows ==> -1 <= m[i] < |cost[i]|
    ensures opt == Gain(cost, m, 0.0, rows)
  {
    opt := 0.0;
    for i := 0 to rows
      invariant opt == Gain(cost, m, 0.0, i)
    {
      if m[i] != -1 {
        opt := opt + cost[i][m[i]];
      }
    }
  }

  lemma {:induction false} GainOfPadded(cost: Matrix, e: Matrix, m: seq<int>, rows: nat, cols: nat, fill: real, k: nat)
    requires Shape(cost, rows, cols) && Padded(cost, rows, cols, fill, e) && IsPartial(m, rows, cols) && k <= rows
    ensures Gain(e, m, 0.0, k) == Gain(cost, m, 0.0, k)
  {
    if k > 0 {
      GainOfPadded(cost, e, m, rows, cols, fill, k - 1);
    }
  }

  lemma FillUnique(cost: Matrix, rows: nat, cols: nat, costLimit: real, pad: real)
    requires Shape(cost, rows, cols) && IsFill(cost, rows, cols, costLimit, pad)
    ensures forall fill :: IsFill(cost, rows, cols, costLimit, fill) ==> fill == pad
  {
  }

  /** Cuts the padding off a solved padded problem and adds up what is left. */
  method DecodeSolution(cost: Matrix, e: Matrix, rows: nat, cols: nat, x: array<int>, y: array<int>, ghost fill: real)
    returns (rowsol: seq<int>, colsol: seq<int>, opt: real)
    requires Shape(cost, rows, cols) && Padded(cost, rows, cols, fill, e)
    requires x.Length == y.Length == rows + cols && x != y
    requires IsOptimal(e, x[..], rows + cols) && IsPermutation(y[..], rows + cols)
    requires forall i :: 0 <= i < rows + cols ==> y[x[i]] == i && x[y[i]] == i
    modifies x, y
    ensures IsInverse(rowsol, colsol, rows, cols) && opt == Gain(cost, rowsol, 0.0, rows)
    ensures IsBest(cost, rowsol, 2.0 * fill, rows, cols)
  {
    ghost var px, py := x[..], y[..];
    DropPadding(x, y, rows, cols);
    rowsol, colsol := x[..rows], y[..cols];
    assert rowsol == Decode(px, rows, cols);
    assert colsol == Decode(py, cols, rows);
    DecodeIsBest(cost, rows, cols, fill, e, px);
    DecodedInverse(px, py, rows, cols);
    opt := TotalCost(e, rowsol, rows);
    GainOfPadded(cost, e, rowsol, rows, cols, fill, rows);
  }

  /** lapjv: None where the program exits. When the padded problem is larger than the row
      count the decoded matching is the best one for twice the fill value; otherwise the
      result vectors are never written and keep the zeros they were resized with. */
  method SolvePadded(cost: Matrix, rows: nat, cols: nat, extendCost: bool, costLimit: real, ghost lo: real,
                     ghost hi: real)
    returns (r: Option<Solution>)
    requires rows >= 1 && Shape(cost, rows, cols) && Solvable(cost, rows, cols, costLimit, lo, hi)
    ensures r.None? <==> rows != cols && !extendCost
    ensures r.Some? && (extendCost || costLimit < NO_LIMIT) && cols >= 1 ==>
      && IsInverse(r.value.rowsol, r.value.colsol, rows, cols)
      && r.value.opt == Gain(cost, r.value.rowsol, 0.0, rows)
      && forall fill :: IsFill(cost, rows, cols, costLimit, fill) ==>
           IsBest(cost, r.value.rowsol, 2.0 * fill, rows, cols)
    ensures r.Some? && !((extendCost || costLimit < NO_LIMIT) && cols >= 1) ==>
      r.value.rowsol == Zeros(rows) && r.value.colsol == Zeros(cols)
    ensures r.Some? && !extendCost && costLimit >= NO_LIMIT ==> r.value.opt == Gain(cost, Zeros(rows), 0.0, rows)
    ensures r.Some? && (extendCost || costLimit < NO_LIMIT) && cols == 0 ==>
      forall fill :: IsFill(cost, rows, cols, costLimit, fill) ==> r.value.opt == Repeat(fill, rows)
  {
    var rowsol, colsol := Zeros(rows), Zeros(cols);
    var n := 0;
    if rows == cols {
      n := rows;
    } else if !extendCost {
      return None;
    }
    var e := cost;
    ghost var pad := 0.0;
    if extendCost || costLimit < NO_LIMIT {
      n := rows + cols;
      e, pad := ExtendCost(cost, rows, cols, costLimit);
    }
    assert InRange(e, n, lo, hi);
    var x, y := new int[n], new int[n];
    var ret := Solve(n, e, x, y, lo, hi);
    var opt := 0.0;
    if n != rows {
      rowsol, colsol, opt := DecodeSolution(cost, e, rows, cols, x, y, pad);
      FillUnique(cost, rows, cols, costLimit, pad);
    } else {
      opt := TotalCost(e, rowsol, rows);
      if extendCost || costLimit < NO_LIMIT {
        FillUnique(cost, rows, cols, costLimit, pad);
        GainOfPadding(cost, e, rows, pad, rows);
      }
    }
    r := Some(Solution(rowsol, colsol, opt));
  }

  /** Without columns the padded matrix holds nothing but the fill value in the rows that are added up. */
  lemma {:induction false} GainOfPadding(cost: Matrix, e: Matrix, rows: nat, fill: real, k: nat)
    requires Shape(cost, rows, 0) && Padded(cost, rows, 0, fill, e) && k <= rows
    ensures Gain(e, Zeros(rows), 0.0, k) == Repeat(fill, k)
  {
    if k > 0 {
      GainOfPadding(cost, e, rows, fill, k - 1);
    }
  }

  lemma DecodedInverse(px: seq<int>, py: seq<int>, rows: nat, cols: nat)
    requires IsPermutation(px, rows + cols) && IsPermutation(py, rows + cols)
    requires forall i :: 0 <= i < rows + cols ==> py[px[i]] == i && px[py[i]] == i
    ensures IsInverse(Decode(px, rows, cols), Decode(py, cols, rows), rows, cols)
  {
    DecodeIsPartial(px, rows, cols);
    DecodeIsPartial(py, cols, rows);
  }

  /** Without padding the vectors that lapjv hands back are an assignment exactly for one row. */
  lemma UnpaddedIsAssignmentIff(n: nat)
    requires n >= 1
    ensures IsInverse(Zeros(n), Zeros(n), n, n) <==> n == 1
  {
    if n > 1 {
      assert Zeros(n)[0] == Zeros(n)[1] == 0;
    } else {
      assert Zeros(1)[0] == 0;
    }
  }

  // ---------------------------------------------------------------- without a limit

  /** Every row or every column has a partner. */
  ghost predicate IsFull(m: seq<int>, rows: nat, cols: nat) {
    IsPartial(m, rows, cols) && ((forall i :: 0 <= i < rows ==> m[i] >= 0) || (forall j :: 0 <= j < cols ==> j in m))
  }

  ghost function PairCount(m: seq<int>, k: nat): nat
    requires k <= |m|
  {
    if k == 0 then 0 else PairCount(m, k - 1) + if m[k - 1] >= 0 then 1 else 0
  }

  lemma {:induction false} GainWithoutLimit(cost: Matrix, m: seq<int>, limit: real, rows: nat, cols: nat, k: nat)
    requires Shape(cost, rows, cols) && IsPartial(m, rows, cols) && k <= rows
    ensures Gain(cost, m, limit, k) == Gain(cost, m, 0.0, k) - limit * PairCount(m, k) as real
  {
    if k > 0 {
      GainWithoutLimit(cost, m, limit, rows, cols, k - 1);
    }
  }

  ghost function Partners(m: seq<int>, k: nat): set<int>
    requires k <= |m|
  {
    set i | 0 <= i < k && m[i] >= 0 :: m[i]
  }

  lemma OneMorePartner(m: seq<int>, rows: nat, cols: nat, k: nat)
    requires IsPartial(m, rows, cols) && 0 < k <= rows
    ensures |Partners(m, k)| == |Partners(m, k - 1)| + if m[k - 1] >= 0 then 1 else 0
  {
    var before := Partners(m, k - 1);
    if m[k - 1] >= 0 {
      assert m[k - 1] !in before;
      assert Partners(m, k) == before + {m[k - 1]};
    } else {
      assert Partners(m, k) == before;
    }
  }

  /** A partial matching has as many pairs as partners. */
  lemma {:induction false} PairsArePartners(m: seq<int>, rows: nat, cols: nat, k: nat)
    requires IsPartial(m, rows, cols) && k <= rows
    ensures PairCount(m, k) == |Partners(m, k)|
  {
    if k > 0 {
      PairsArePartners(m, rows, cols, k - 1);
      OneMorePartner(m, rows, cols, k);
    }
  }

  lemma {:induction false} CountAtMost(m: seq<int>, k: nat)
    requires k <= |m|
    ensures PairCount(m, k) <= k
    ensures (forall i :: 0 <= i < k ==> m[i] >= 0) ==> PairCount(m, k) == k
  {
    if k > 0 {
      CountAtMost(m, k - 1);
    }
  }

  /** A full matching has as many pairs as the shorter side has members. */
  lemma FullPairCount(m: seq<int>, rows: nat, cols: nat)
    requires IsFull(m, rows, cols)
    ensures PairCount(m, rows) == if rows <= cols then rows else cols
  {
    PairsArePartners(m, rows, cols, rows);
    CountAtMost(m, rows);
    assert Partners(m, rows) <= RangeTo(cols);
    SubsetSize(Partners(m, rows), RangeTo(cols));
    if forall j :: 0 <= j < cols ==> j in m {
      forall j | j in RangeTo(cols)
        ensures j in Partners(m, rows)
      {
        assert j in m;
        var i :| 0 <= i < rows && m[i] == j;
      }
      SubsetSize(RangeTo(cols), Partners(m, rows));
    }
  }

  /** Full matchings compare by their costs alone. */
  lemma FullsCompare(cost: Matrix, m: seq<int>, q: seq<int>, limit: real, rows: nat, cols: nat)
    requires Shape(cost, rows, cols) && IsFull(m, rows, cols) && IsFull(q, rows, cols)
    requires Gain(cost, m, limit, rows) <= Gain(cost, q, limit, rows)
    ensures Gain(cost, m, 0.0, rows) <= Gain(cost, q, 0.0, rows)
  {
    FullPairCount(m, rows, cols);
    FullPairCount(q, rows, cols);
    GainWithoutLimit(cost, m, limit, rows, cols, rows);
    GainWithoutLimit(cost, q, limit, rows, cols, rows);
  }

  lemma FillLeavesNone(cost: Matrix, m: seq<int>, rows: nat, cols: nat, fill: real)
    requires Shape(cost, rows, cols) && IsFill(cost, rows, cols, NO_LIMIT, fill)
    requires IsBest(cost, m, 2.0 * fill, rows, cols)
    ensures IsFull(m, rows, cols)
  {
    BestRespectsLimit(cost, m, 2.0 * fill, rows, cols);
    assert forall i, j :: 0 <= i < rows && 0 <= j < cols ==> cost[i][j] < 2.0 * fill;
  }

  /** Without a limit the best matching leaves no row and column over that could be paired, and no full
      matching costs less. */
  lemma NoLimitIsFull(cost: Matrix, m: seq<int>, rows: nat, cols: nat, fill: real)
    requires Shape(cost, rows, cols) && IsFill(cost, rows, cols, NO_LIMIT, fill)
    requires IsBest(cost, m, 2.0 * fill, rows, cols)
    ensures IsFull(m, rows, cols)
    ensures forall q :: IsFull(q, rows, cols) ==> Gain(cost, m, 0.0, rows) <= Gain(cost, q, 0.0, rows)
  {
    FillLeavesNone(cost, m, rows, cols, fill);
    forall q | IsFull(q, rows, cols)
      ensures Gain(cost, m, 0.0, rows) <= Gain(cost, q, 0.0, rows)
    {
      FullsCompare(cost, m, q, 2.0 * fill, rows, cols);
    }
  }

  /** Two rows and two columns, solved without padding: both rows are said to have column 0. */
  method UnpaddedPair(cost: Matrix, ghost lo: real, ghost hi: real) returns (rowsol: seq<int>)
    requires Shape(cost, 2, 2) && Solvable(cost, 2, 2, NO_LIMIT, lo, hi)
    ensures rowsol == [0, 0] && !IsPartial(rowsol, 2, 2)
  {
    var r := SolvePadded(cost, 2, 2, false, NO_LIMIT, lo, hi);
    rowsol := r.value.rowsol;
    assert rowsol[0] == rowsol[1] == 0;
  }

  // ---------------------------------------------------------------- matches and leftovers

  /** The pairs of a partial matching, by increasing row. */
  function Pairs(m: seq<int>, k: nat): (r: seq<(int, int)>)
    requires k <= |m|
    ensures forall i, j :: (i, j) in r <==> 0 <= i < k && m[i] == j && j >= 0
  {
    if k == 0 then [] else Pairs(m, k - 1) + if m[k - 1] >= 0 then [(k - 1, m[k - 1])] else []
  }

  /** The indices without a partner, increasing. */
  function Holes(m: seq<int>, k: nat): (r: seq<int>)
    requires k <= |m|
    ensures forall i :: i in r <==> 0 <= i < k && m[i] < 0
    ensures forall a, b :: 0 <= a < b < |r| ==> r[a] < r[b]
  {
    if k == 0 then [] else
      var h := Holes(m, k - 1);
      assert forall a :: 0 <= a < |h| ==> h[a] in h;
      h + if m[k - 1] < 0 then [k - 1] else []
  }

  /** Splits rows and columns into matches and leftovers. `m` and `w` are the matching seen
      from the rows and from the columns. */
  method LinearAssign(cost: Matrix, rows: nat, cols: nat, thresh: real, ghost lo: real, ghost hi: real)
    returns (matches: seq<(int, int)>, unmatchedA: seq<int>, unmatchedB: seq<int>, ghost m: seq<int>, ghost w: seq<int>)
    requires cost == [] || (rows >= 1 && cols >= 1 && Shape(cost, rows, cols))
    requires cost != [] ==> thresh < NO_LIMIT && Solvable(cost, rows, cols, thresh, lo, hi)
    ensures IsInverse(m, w, rows, cols)
    ensures matches == Pairs(m, rows) && unmatchedA == Holes(m, rows) && unmatchedB == Holes(w, cols)
    ensures cost == [] ==> forall i :: 0 <= i < rows ==> m[i] == -1
    ensures cost != [] ==> IsBest(cost, m, thresh, rows, cols)
    ensures Partitions(rows, cols, matches, unmatchedA, unmatchedB)
  {
    if |cost| == 0 {
      m, w := Unmatched(rows), Unmatched(cols);
      unmatchedA := AllIndices(rows);
      unmatchedB := AllIndices(cols);
      matches := [];
      NoPairs(rows);
    } else {
      var s := SolvePadded(cost, rows, cols, true, thresh, lo, hi);
      m, w := s.value.rowsol, s.value.colsol;
      assert IsFill(cost, rows, cols, thresh, thresh / 2.0);
      matches, unmatchedA, unmatchedB := SplitSolution(s.value.rowsol, s.value.colsol);
    }
    MatchingPartitions(m, w, rows, cols);
  }

  /** Every row and every column is in one pair or among the leftovers, and there only once. */
  ghost predicate Partitions(rows: nat, cols: nat, matches: seq<(int, int)>, unmatchedA: seq<int>, unmatchedB: seq<int>)
  {
    && (forall i, j :: (i, j) in matches ==> 0 <= i < rows && 0 <= j < cols)
    && (forall i :: i in unmatchedA <==> 0 <= i < rows && forall j :: (i, j) !in matches)
    && (forall j :: j in unmatchedB <==> 0 <= j < cols && forall i :: (i, j) !in matches)
    && (forall i, j, k :: (i, j) in matches && (i, k) in matches ==> j == k)
    && (forall i, j, k :: (i, j) in matches && (k, j) in matches ==> i == k)
    && (forall a, b :: 0 <= a < b < |unmatchedA| ==> unmatchedA[a] < unmatchedA[b])
    && (forall a, b :: 0 <= a < b < |unmatchedB| ==> unmatchedB[a] < unmatchedB[b])
  }

  ghost function Unmatched(k: nat): (m: seq<int>)
    ensures |m| == k && forall i :: 0 <= i < k ==> m[i] == -1
  {
    seq(k, _ => -1)
  }

  lemma {:induction false} NoPairs(k: nat)
    ensures Pairs(Unmatched(k), k) == []
  {
    NoPairsPrefix(k, k);
  }

  lemma {:induction false} NoPairsPrefix(k: nat, i: nat)
    requires i <= k
    ensures Pairs(Unmatched(k), i) == []
  {
    if i > 0 {
      NoPairsPrefix(k, i - 1);
    }
  }

  method AllIndices(k: nat) returns (r: seq<int>)
    ensures r == Holes(Unmatched(k), k)
  {
    r := [];
    for i := 0 to k
      invariant r == Holes(Unmatched(k), i)
    {
      r := r + [i];
    }
  }

  method SplitSolution(rowsol: seq<int>, colsol: seq<int>)
    returns (matches: seq<(int, int)>, unmatchedA: seq<int>, unmatchedB: seq<int>)
    ensures matches == Pairs(rowsol, |rowsol|)
    ensures unmatchedA == Holes(rowsol, |rowsol|) && unmatchedB == Holes(colsol, |colsol|)
  {
    matches, unmatchedA, unmatchedB := [], [], [];
    for i := 0 to |rowsol|
      invariant matches == Pairs(rowsol, i) && unmatchedA == Holes(rowsol, i)
    {
      if rowsol[i] >= 0 {
        matches := matches + [(i, rowsol[i])];
      } else {
        unmatchedA := unmatchedA + [i];
      }
    }
    for i := 0 to |colsol|
      invariant unmatchedB == Holes(colsol, i)
    {
      if colsol[i] < 0 {
        unmatchedB := unmatchedB + [i];
      }
    }
  }

  /** Matches and leftovers split the rows and the columns: every index turns up exactly once. */
  lemma MatchingPartitions(m: seq<int>, w: seq<int>, rows: nat, cols: nat)
    requires IsInverse(m, w, rows, cols)
    ensures Partitions(rows, cols, Pairs(m, rows), Holes(m, rows), Holes(w, cols))
  {
    forall i | 0 <= i < rows
      ensures i in Holes(m, rows) <==> forall j :: (i, j) !in Pairs(m, rows)
    {
      if m[i] >= 0 {
        assert (i, m[i]) in Pairs(m, rows);
      }
    }
    forall j | 0 <= j < cols
      ensures j in Holes(w, cols) <==> forall i :: (i, j) !in Pairs(m, rows)
    {
      if w[j] >= 0 {
        assert (w[j], j) in Pairs(m, rows);
      }
    }
  }
}
