/** Greedy non-maximum suppression of detections, and the grid of anchor cells. */
module Nms {
  import opened Pixels

  datatype Rect = Rect(x: real, y: real, w: real, h: real)

  /** Boxes have no negative sides. */
  type Box = r: Rect | r.w >= 0.0 && r.h >= 0.0 witness Rect(0.0, 0.0, 0.0, 0.0)

  datatype Object = Object(box: Box, prob: real, kind: int)

  function Min(a: real, b: real): real {
    if a <= b then a else b
  }

  function Max(a: real, b: real): real {
    if a >= b then a else b
  }

  function Area(b: Rect): real {
    b.w * b.h
  }

  /** The common part of two boxes; empty if they do not meet. */
  function Meet(a: Rect, b: Rect): Rect {
    var x, y := Max(a.x, b.x), Max(a.y, b.y);
    var w, h := Min(a.x + a.w, b.x + b.w) - x, Min(a.y + a.h, b.y + b.h) - y;
    if w <= 0.0 || h <= 0.0 then Rect(0.0, 0.0, 0.0, 0.0) else Rect(x, y, w, h)
  }

  function Union(a: Rect, b: Rect): real {
    Area(a) + Area(b) - Area(Meet(a, b))
  }

  predicate Exceeds(inter: real, union: real, t: real) {
    inter > t * union
  }

  /** More than `t` of the two boxes' union is common to both. */
  predicate Overlaps(a: Rect, b: Rect, t: real) {
    Exceeds(Area(Meet(a, b)), Union(a, b), t)
  }

  lemma Products(a: real, b: real, c: real, d: real)
    requires 0.0 <= a <= c && 0.0 <= b <= d
    ensures 0.0 <= a * b <= c * d
  {
    assert c * d - a * b == c * (d - b) + (c - a) * b;
  }

  lemma MeetIsPart(a: Box, b: Box)
    ensures 0.0 <= Area(Meet(a, b)) <= Area(a) && Area(Meet(a, b)) <= Area(b)
  {
    var m := Meet(a, b);
    Products(m.w, m.h, a.w, a.h);
    Products(m.w, m.h, b.w, b.h);
  }

  lemma OverlapsBothWays(a: Rect, b: Rect, t: real)
    ensures Overlaps(a, b, t) <==> Overlaps(b, a, t)
  {
    assert Meet(a, b) == Meet(b, a);
  }

  /** The test is the one on the quotient; where the union is empty neither test succeeds. */
  lemma OverlapsIsQuotient(a: Box, b: Box, t: real)
    ensures Union(a, b) >= 0.0
    ensures Union(a, b) > 0.0 ==> (Overlaps(a, b, t) <==> Area(Meet(a, b)) / Union(a, b) > t)
    ensures Union(a, b) == 0.0 ==> !Overlaps(a, b, t)
  {
    MeetWithinUnion(a, b);
    QuotientTest(Area(Meet(a, b)), Union(a, b), t);
  }

  lemma MeetWithinUnion(a: Box, b: Box)
    ensures 0.0 <= Area(Meet(a, b)) <= Union(a, b)
  {
    MeetIsPart(a, b);
  }

  lemma QuotientTest(i: real, u: real, t: real)
    requires 0.0 <= i <= u
    ensures u > 0.0 ==> (Exceeds(i, u, t) <==> i / u > t)
    ensures u == 0.0 ==> !Exceeds(i, u, t)
  {
    if u > 0.0 {
      var q := i / u;
      assert q * u == i;
      assert (q - t) * u == i - t * u;
      Sign(q - t, u);
    }
  }

  lemma Sign(d: real, u: real)
    requires u > 0.0
    ensures d > 0.0 <==> d * u > 0.0
  {
  }

  /** The box covers exactly these pixels. */
  ghost predicate Covers(b: Rect, left: int, top: int, right: int, bottom: int) {
    && b.x == left as real && b.y == top as real
    && b.w == (right - left) as real && b.h == (bottom - top) as real && left <= right && top <= bottom
  }

  lemma AreaCounts(b: Rect, left: int, top: int, right: int, bottom: int)
    requires Covers(b, left, top, right, bottom)
    ensures Area(b) == |Block(left, top, right, bottom)| as real
  {
    BlockSize(left, top, right, bottom, b.w, b.h);
  }

  lemma MeetExtent(a: Rect, b: Rect, l: int, t: int, r: int, m: int, l': int, t': int, r': int, m': int)
    requires Covers(a, l, t, r, m) && Covers(b, l', t', r', m')
    ensures Area(Meet(a, b)) == Extent(CommonPart(l, t, r, m, l', t', r', m'))
  {
    var s := CommonPart(l, t, r, m, l', t', r', m');
    assert if s.width > 0.0 && s.height > 0.0 then Meet(a, b).w == s.width && Meet(a, b).h == s.height
           else Meet(a, b).w == Meet(a, b).h == 0.0;
  }

  lemma MeetCounts(a: Rect, b: Rect, l: int, t: int, r: int, m: int, l': int, t': int, r': int, m': int)
    requires Covers(a, l, t, r, m) && Covers(b, l', t', r', m')
    ensures Area(Meet(a, b)) == |Block(l, t, r, m) * Block(l', t', r', m')| as real
  {
    MeetExtent(a, b, l, t, r, m, l', t', r', m');
    CommonSize(l, t, r, m, l', t', r', m');
  }

  lemma UnionCounts(a: Rect, b: Rect, l: int, t: int, r: int, m: int, l': int, t': int, r': int, m': int)
    requires Covers(a, l, t, r, m) && Covers(b, l', t', r', m')
    ensures Union(a, b) == |Block(l, t, r, m) + Block(l', t', r', m')| as real
  {
    AreaCounts(a, l, t, r, m);
    AreaCounts(b, l', t', r', m');
    MeetCounts(a, b, l, t, r, m, l', t', r', m');
    UnionSize(Block(l, t, r, m), Block(l', t', r', m'));
  }

  /** Boxes that cover whole pixels overlap too much if more than that share of these pixels is common to both. */
  lemma OverlapsCounts(a: Box, b: Box, l: int, t: int, r: int, m: int, l': int, t': int, r': int, m': int,
                       threshold: real)
    requires Covers(a, l, t, r, m) && Covers(b, l', t', r', m')
    ensures var s, s' := Block(l, t, r, m), Block(l', t', r', m');
      Overlaps(a, b, threshold) <==> s + s' != {} && |s * s'| as real / |s + s'| as real > threshold
  {
    MeetCounts(a, b, l, t, r, m, l', t', r', m');
    UnionCounts(a, b, l, t, r, m, l', t', r', m');
    OverlapsIsQuotient(a, b, threshold);
  }

  // ---------------------------------------------------------------- suppression

  ghost predicate Increasing(r: seq<nat>) {
    forall a, b :: 0 <= a < b < |r| ==> r[a] < r[b]
  }

  /** Object `i` clashes with an earlier one that is kept. */
  ghost predicate Suppressed(clash: (nat, nat) -> bool, r: seq<nat>, i: nat) {
    exists a :: 0 <= a < |r| && r[a] < i && clash(i, r[a])
  }

  /** Exactly those of `n` objects that no earlier kept one suppresses, in order. */
  ghost predicate Kept(n: nat, clash: (nat, nat) -> bool, r: seq<nat>) {
    && Increasing(r) && (forall a :: 0 <= a < |r| ==> r[a] < n)
    && (forall a, b :: 0 <= a < b < |r| ==> !clash(r[b], r[a]))
    && (forall i: nat :: i < n && i !in r ==> Suppressed(clash, r, i))
  }

  method KeepGreedily(n: nat, clash: (nat, nat) -> bool) returns (r: seq<nat>)
    ensures Kept(n, clash, r)
  {
    r := [];
    for i := 0 to n
      invariant Kept(i, clash, r)
    {
      var keep := true;
      for j := 0 to |r|
        invariant keep && forall a {:trigger r[a]} :: 0 <= a < j ==> !clash(i, r[a])
      {
        if clash(i, r[j]) {
          keep := false;
          break;
        }
      }
      assert !keep ==> Suppressed(clash, r, i);
      StillSuppressed(clash, r, i);
      if keep {
        r := r + [i];
      }
    }
  }

  lemma StillSuppressed(clash: (nat, nat) -> bool, r: seq<nat>, x: nat)
    ensures forall i: nat :: Suppressed(clash, r, i) ==> Suppressed(clash, r + [x], i)
  {
    forall i: nat | Suppressed(clash, r, i)
      ensures Suppressed(clash, r + [x], i)
    {
      var a :| 0 <= a < |r| && r[a] < i && clash(i, r[a]);
      assert (r + [x])[a] == r[a];
    }
  }

  /** Objects `i` and `j` overlap too much. */
  ghost function Clash(objects: seq<Object>, t: real): (nat, nat) -> bool {
    (i: nat, j: nat) => i < |objects| && j < |objects| && Overlaps(objects[i].box, objects[j].box, t)
  }

  ghost predicate KeptBoxes(objects: seq<Object>, t: real, r: seq<nat>) {
    Kept(|objects|, Clash(objects, t), r)
  }

  lemma SameClash(n: nat, f: (nat, nat) -> bool, g: (nat, nat) -> bool, r: seq<nat>)
    requires Kept(n, f, r) && forall i: nat, j: nat :: i < n && j < n ==> f(i, j) == g(i, j)
    ensures Kept(n, g, r)
  {
    forall i: nat | i < n && i !in r
      ensures Suppressed(g, r, i)
    {
      assert Suppressed(f, r, i);
      var a :| 0 <= a < |r| && r[a] < i && f(i, r[a]);
      assert g(i, r[a]);
    }
  }

  /** The comparison with the areas computed beforehand. */
  function TooMuch(objects: seq<Object>, areas: seq<real>, t: real): (nat, nat) -> bool {
    (i: nat, j: nat) =>
      i < |objects| && j < |objects| && |areas| == |objects|
      && var inter := Area(Meet(objects[i].box, objects[j].box)); Exceeds(inter, areas[i] + areas[j] - inter, t)
  }

  lemma SameTest(objects: seq<Object>, areas: seq<real>, t: real, i: nat, j: nat)
    requires |areas| == |objects| && i < |objects| && j < |objects|
    requires areas[i] == Area(objects[i].box) && areas[j] == Area(objects[j].box)
    ensures TooMuch(objects, areas, t)(i, j) == Clash(objects, t)(i, j)
  {
    assert Union(objects[i].box, objects[j].box) == areas[i] + areas[j] - Area(Meet(objects[i].box, objects[j].box));
  }

  method NmsSortedBoxes(objects: seq<Object>, t: real) returns (r: seq<nat>)
    ensures KeptBoxes(objects, t, r)
  {
    var areas := [];
    for i := 0 to |objects|
      invariant |areas| == i && forall k :: 0 <= k < i ==> areas[k] == Area(objects[k].box)
    {
      areas := areas + [Area(objects[i].box)];
    }
    r := KeepGreedily(|objects|, TooMuch(objects, areas, t));
    forall i: nat, j: nat | i < |objects| && j < |objects|
      ensures TooMuch(objects, areas, t)(i, j) == Clash(objects, t)(i, j)
    {
      SameTest(objects, areas, t, i, j);
    }
    SameClash(|objects|, TooMuch(objects, areas, t), Clash(objects, t), r);
  }

  // ---------------------------------------------------------------- what it means

  lemma {:induction false} KeptByBoth(n: nat, clash: (nat, nat) -> bool, r: seq<nat>, s: seq<nat>, i: nat)
    requires Kept(n, clash, r) && Kept(n, clash, s) && i in r
    ensures i in s
    decreases i
  {
    var c :| 0 <= c < |r| && r[c] == i;
    forall a | 0 <= a < |s| && s[a] < i
      ensures !clash(i, s[a])
    {
      assert s[a] in s;
      KeptByBoth(n, clash, s, r, s[a]);
      var b :| 0 <= b < |r| && r[b] == s[a];
      assert b < c;
    }
    assert !Suppressed(clash, s, i);
  }

  lemma {:induction false} SameElementsSame(r: seq<nat>, s: seq<nat>)
    requires Increasing(r) && Increasing(s) && forall i :: i in r <==> i in s
    ensures r == s
  {
    assert r != [] ==> r[|r| - 1] in r;
    assert s != [] ==> s[|s| - 1] in s;
    if r != [] {
      var x, y := r[|r| - 1], s[|s| - 1];
      assert x in s && y in r;
      assert x == y;
      var r0, s0 := r[..|r| - 1], s[..|s| - 1];
      forall i: nat
        ensures i in r0 <==> i in s0
      {
        assert i in r0 <==> i in r && i != x;
        assert i in s0 <==> i in s && i != y;
      }
      SameElementsSame(r0, s0);
    }
  }

  /** The result is determined by what it means. */
  lemma KeptIsUnique(n: nat, clash: (nat, nat) -> bool, r: seq<nat>, s: seq<nat>)
    requires Kept(n, clash, r) && Kept(n, clash, s)
    ensures r == s
  {
    forall i
      ensures i in r <==> i in s
    {
      if i in r {
        KeptByBoth(n, clash, r, s, i);
      }
      if i in s {
        KeptByBoth(n, clash, s, r, i);
      }
    }
    SameElementsSame(r, s);
  }

  function Survivors(objects: seq<Object>, r: seq<nat>): (s: seq<Object>)
    requires forall a :: 0 <= a < |r| ==> r[a] < |objects|
    ensures |s| == |r| && forall a :: 0 <= a < |r| ==> s[a] == objects[r[a]]
  {
    seq(|r|, a requires 0 <= a < |r| => objects[r[a]])
  }

  /** Where nothing clashes all are kept. */
  lemma NoneClash(n: nat, clash: (nat, nat) -> bool, r: seq<nat>)
    requires Kept(n, clash, r) && forall i: nat, j: nat :: j < i < n ==> !clash(i, j)
    ensures |r| == n && forall a :: 0 <= a < n ==> r[a] == a
  {
    var all := seq(n, a => a);
    forall i: nat | i < n
      ensures i in all
    {
      assert all[i] == i;
    }
    assert Kept(n, clash, all);
    KeptIsUnique(n, clash, r, all);
  }

  /** Suppressing again keeps all. */
  lemma SurvivorsStay(objects: seq<Object>, t: real, r: seq<nat>, again: seq<nat>)
    requires KeptBoxes(objects, t, r) && KeptBoxes(Survivors(objects, r), t, again)
    ensures |again| == |r| && Survivors(Survivors(objects, r), again) == Survivors(objects, r)
  {
    var s := Survivors(objects, r);
    forall i: nat, j: nat | j < i < |s|
      ensures !Clash(s, t)(i, j)
    {
      assert !Clash(objects, t)(r[i], r[j]);
    }
    NoneClash(|s|, Clash(s, t), again);
  }

  ghost predicate SortedByScore(objects: seq<Object>) {
    forall i, j :: 0 <= i < j < |objects| ==> objects[i].prob >= objects[j].prob
  }

  /** With the objects sorted: what is kept pairwise overlaps at most by the threshold, either way round,
      and what is dropped gives way to a kept object of no lower score. */
  lemma KeptMeans(objects: seq<Object>, t: real, r: seq<nat>)
    requires SortedByScore(objects) && KeptBoxes(objects, t, r)
    ensures forall a, b :: 0 <= a < |r| && 0 <= b < |r| && a != b ==> !Overlaps(objects[r[a]].box, objects[r[b]].box, t)
    ensures forall i: nat :: i < |objects| && i !in r ==> GivesWay(objects, t, r, i)
  {
    forall a, b | 0 <= a < |r| && 0 <= b < |r| && a != b
      ensures !Overlaps(objects[r[a]].box, objects[r[b]].box, t)
    {
      OverlapsBothWays(objects[r[a]].box, objects[r[b]].box, t);
      assert !Clash(objects, t)(r[if a < b then b else a], r[if a < b then a else b]);
    }
    forall i: nat | i < |objects| && i !in r
      ensures GivesWay(objects, t, r, i)
    {
      assert Suppressed(Clash(objects, t), r, i);
      var a :| 0 <= a < |r| && r[a] < i && Clash(objects, t)(i, r[a]);
    }
  }

  ghost predicate GivesWay(objects: seq<Object>, t: real, r: seq<nat>, i: nat)
    requires i < |objects|
  {
    exists a :: 0 <= a < |r| && r[a] < i && Overlaps(objects[i].box, objects[r[a]].box, t)
                && objects[r[a]].prob >= objects[i].prob
  }

  // ---------------------------------------------------------------- the grid

  datatype Cell = Cell(column: nat, row: nat, stride: nat)

  /** The cell is one of the frame's at its stride. */
  predicate InFrame(c: Cell, width: nat, height: nat) {
    c.stride > 0 && (c.column + 1) * c.stride <= width && (c.row + 1) * c.stride <= height
  }

  /** Row by row. */
  predicate Before(a: Cell, b: Cell) {
    a.row < b.row || (a.row == b.row && a.column < b.column)
  }

  ghost predicate RowByRow(cells: seq<Cell>) {
    forall i, j :: 0 <= i < j < |cells| ==> Before(cells[i], cells[j])
  }

  lemma FitsIff(n: nat, width: nat, stride: nat)
    requires stride > 0
    ensures n < width / stride <==> (n + 1) * stride <= width
  {
    var q := width / stride;
    assert width == q * stride + width % stride;
    if n < q {
      Times(n + 1, q, stride);
    } else {
      Times(q + 1, n + 1, stride);
      assert (q + 1) * stride == q * stride + stride;
    }
  }

  lemma Times(a: nat, b: nat, c: nat)
    requires a <= b
    ensures a * c <= b * c
  {
  }

  /** All cells of one stride, row by row. */
  method Grid(width: nat, height: nat, stride: nat) returns (cells: seq<Cell>)
    requires stride > 0
    ensures RowByRow(cells)
    ensures forall c :: c in cells <==> c.stride == stride && InFrame(c, width, height)
  {
    var columns, rows := width / stride, height / stride;
    cells := [];
    for row := 0 to rows
      invariant RowByRow(cells)
      invariant forall c :: c in cells <==> c.stride == stride && c.column < columns && c.row < row
    {
      for column := 0 to columns
        invariant RowByRow(cells)
        invariant forall c :: c in cells <==>
                                c.stride == stride
                                && ((c.column < columns && c.row < row) || (c.row == row && c.column < column))
      {
        forall i | 0 <= i < |cells|
          ensures Before(cells[i], Cell(column, row, stride))
        {
          assert cells[i] in cells;
        }
        cells := cells + [Cell(column, row, stride)];
      }
    }
    forall c: Cell | c.stride == stride
      ensures c.column < columns && c.row < rows <==> InFrame(c, width, height)
    {
      FitsIff(c.column, width, stride);
      FitsIff(c.row, height, stride);
    }
  }

  /** The grids of the strides, one after the other. */
  method GenerateGridAndStrides(width: nat, height: nat, strides: seq<nat>)
    returns (grids: seq<seq<Cell>>, cells: seq<Cell>)
    requires forall k :: 0 <= k < |strides| ==> strides[k] > 0
    ensures |grids| == |strides| && cells == Concatenated(grids)
    ensures forall k :: 0 <= k < |strides| ==> RowByRow(grids[k])
    ensures forall k, c :: 0 <= k < |strides| ==>
              (c in grids[k] <==> c.stride == strides[k] && InFrame(c, width, height))
  {
    grids, cells := [], [];
    for k := 0 to |strides|
      invariant |grids| == k && cells == Concatenated(grids)
      invariant forall j :: 0 <= j < k ==> RowByRow(grids[j])
      invariant forall j, c :: 0 <= j < k ==> (c in grids[j] <==> c.stride == strides[j] && InFrame(c, width, height))
    {
      var grid := Grid(width, height, strides[k]);
      assert (grids + [grid])[..k] == grids;
      grids, cells := grids + [grid], cells + grid;
    }
  }

  function Concatenated(grids: seq<seq<Cell>>): seq<Cell> {
    if grids == [] then [] else Concatenated(grids[..|grids| - 1]) + grids[|grids| - 1]
  }
}
