/** Boxes and their overlap, as the tracker measures it: sides are counted with both ends,
    so a degenerate box still has positive area.
 */
module Boxes {
  import opened Assignment
  import opened Pixels

  datatype RawBox = RawBox(x1: real, y1: real, x2: real, y2: real)

  type Box = b: RawBox | b.x1 <= b.x2 && b.y1 <= b.y2 witness RawBox(0.0, 0.0, 0.0, 0.0)

  function Min(a: real, b: real): real {
    if b < a then b else a
  }

  function Max(a: real, b: real): real {
    if a < b then b else a
  }

  /** Side lengths, both ends counted. */
  function Width(b: Box): (r: real)
    ensures r >= 1.0
  {
    b.x2 - b.x1 + 1.0
  }

  function Height(b: Box): (r: real)
    ensures r >= 1.0
  {
    b.y2 - b.y1 + 1.0
  }

  function Area(b: Box): (r: real)
    ensures r >= 1.0
  {
    MulMonotone(1.0, 1.0, Width(b), Height(b));
    Width(b) * Height(b)
  }

  /** Side lengths of the common part; not positive when there is none. */
  function CommonWidth(a: Box, b: Box): (r: real)
    ensures r <= Width(a) && r <= Width(b)
  {
    Min(a.x2, b.x2) - Max(a.x1, b.x1) + 1.0
  }

  function CommonHeight(a: Box, b: Box): (r: real)
    ensures r <= Height(a) && r <= Height(b)
  {
    Min(a.y2, b.y2) - Max(a.y1, b.y1) + 1.0
  }

  function Overlap(a: Box, b: Box): (r: real)
    ensures 0.0 <= r <= Area(a) && r <= Area(b)
  {
    if CommonWidth(a, b) > 0.0 && CommonHeight(a, b) > 0.0 then
      CommonAtMostArea(a, b);
      CommonWidth(a, b) * CommonHeight(a, b)
    else 0.0
  }

  /** Positive common sides multiply to no more than either area. */
  lemma CommonAtMostArea(a: Box, b: Box)
    requires CommonWidth(a, b) > 0.0 && CommonHeight(a, b) > 0.0
    ensures 0.0 <= CommonWidth(a, b) * CommonHeight(a, b) <= Area(a)
    ensures CommonWidth(a, b) * CommonHeight(a, b) <= Area(b)
  {
    MulMonotone(CommonWidth(a, b), CommonHeight(a, b), Width(a), Height(a));
    MulMonotone(CommonWidth(a, b), CommonHeight(a, b), Width(b), Height(b));
  }

  lemma MulMonotone(a: real, b: real, c: real, d: real)
    requires 0.0 <= a <= c && 0.0 <= b <= d
    ensures 0.0 <= a * b <= c * d
  {
    assert a * b <= c * b <= c * d;
  }

  /** Intersection over union. */
  function Iou(a: Box, b: Box): (r: real) {
    Overlap(a, b) / (Area(a) + Area(b) - Overlap(a, b))
  }

  function Distance(a: Box, b: Box): real {
    1.0 - Iou(a, b)
  }

  lemma QuotientInUnit(x: real, y: real)
    requires 0.0 <= x <= y && y > 0.0
    ensures 0.0 <= x / y <= 1.0
  {
    var q := x / y;
    assert q * y == x;
    assert (1.0 - q) * y == y - x;
  }

  lemma IouInUnit(a: Box, b: Box)
    ensures 0.0 <= Iou(a, b) <= 1.0
  {
    QuotientInUnit(Overlap(a, b), Area(a) + Area(b) - Overlap(a, b));
  }

  lemma OverlapSymmetric(a: Box, b: Box)
    ensures Overlap(a, b) == Overlap(b, a)
  {
    assert CommonWidth(a, b) == CommonWidth(b, a) && CommonHeight(a, b) == CommonHeight(b, a);
  }

  lemma OverlapSelf(a: Box)
    ensures Overlap(a, a) == Area(a)
  {
    assert CommonWidth(a, a) == Width(a) && CommonHeight(a, a) == Height(a);
  }

  lemma QuotientOfEqual(x: real, y: real)
    requires x == y > 0.0
    ensures x / y == 1.0
  {
  }

  lemma IouSymmetric(a: Box, b: Box)
    ensures Iou(a, b) == Iou(b, a)
  {
    OverlapSymmetric(a, b);
    assert Area(a) + Area(b) - Overlap(a, b) == Area(b) + Area(a) - Overlap(b, a);
  }

  lemma IouSelf(a: Box)
    ensures Iou(a, a) == 1.0
  {
    OverlapSelf(a);
    QuotientOfEqual(Overlap(a, a), Area(a) + Area(a) - Overlap(a, a));
  }

  /** Overlap is a symmetric share of the union, and a box overlaps itself in full. */
  lemma IouProperties(a: Box, b: Box)
    ensures 0.0 <= Iou(a, b) <= 1.0
    ensures Iou(a, b) == Iou(b, a)
    ensures Iou(a, a) == 1.0
  {
    IouInUnit(a, b);
    IouSymmetric(a, b);
    IouSelf(a);
  }

  /** A box whose corners are pixels covers these pixels, both ends counted. */
  ghost predicate Covers(b: Box, left: int, top: int, right: int, bottom: int) {
    && b.x1 == left as real && b.y1 == top as real
    && b.x2 == (right - 1) as real && b.y2 == (bottom - 1) as real && left < right && top < bottom
  }

  lemma AreaCounts(b: Box, left: int, top: int, right: int, bottom: int)
    requires Covers(b, left, top, right, bottom)
    ensures Area(b) == |Block(left, top, right, bottom)| as real
  {
    BlockSize(left, top, right, bottom, Width(b), Height(b));
  }

  lemma OverlapExtent(a: Box, b: Box)
    ensures Overlap(a, b) == Extent(Sides(CommonWidth(a, b), CommonHeight(a, b)))
  {
  }

  lemma CommonSides(a: Box, b: Box, l: int, t: int, r: int, m: int, l': int, t': int, r': int, m': int)
    requires Covers(a, l, t, r, m) && Covers(b, l', t', r', m')
    ensures Sides(CommonWidth(a, b), CommonHeight(a, b)) == CommonPart(l, t, r, m, l', t', r', m')
  {
  }

  lemma OverlapCounts(a: Box, b: Box, l: int, t: int, r: int, m: int, l': int, t': int, r': int, m': int)
    requires Covers(a, l, t, r, m) && Covers(b, l', t', r', m')
    ensures Overlap(a, b) == |Block(l, t, r, m) * Block(l', t', r', m')| as real
  {
    OverlapExtent(a, b);
    CommonSides(a, b, l, t, r, m, l', t', r', m');
    CommonSize(l, t, r, m, l', t', r', m');
  }

  /** The overlap of boxes whose corners are pixels is the share of their pixels that both cover. */
  lemma IouCounts(a: Box, b: Box, l: int, t: int, r: int, m: int, l': int, t': int, r': int, m': int)
    requires Covers(a, l, t, r, m) && Covers(b, l', t', r', m')
    ensures var s, s' := Block(l, t, r, m), Block(l', t', r', m');
      s + s' != {} && Iou(a, b) == |s * s'| as real / |s + s'| as real
  {
    AreaCounts(a, l, t, r, m);
    AreaCounts(b, l', t', r', m');
    OverlapCounts(a, b, l, t, r, m, l', t', r', m');
    UnionSize(Block(l, t, r, m), Block(l', t', r', m'));
    assert Pixel(l, t) in Block(l, t, r, m);
  }

  lemma MetBoxes(a: Box, b: Box, iw: real, ih: real)
    requires iw == CommonWidth(a, b) > 0.0 && ih == CommonHeight(a, b) > 0.0
    ensures iw * ih == Overlap(a, b) && (a.x2 - a.x1 + 1.0) * (a.y2 - a.y1 + 1.0) == Area(a)
  {
  }

  lemma ApartBoxes(a: Box, b: Box)
    requires CommonWidth(a, b) <= 0.0 || CommonHeight(a, b) <= 0.0
    ensures Iou(a, b) == 0.0
  {
  }

  method IouCell(a: Box, b: Box, boxArea: real) returns (r: real)
    requires boxArea == Area(b)
    ensures r == Iou(a, b)
  {
    var iw := Min(a.x2, b.x2) - Max(a.x1, b.x1) + 1.0;
    if iw > 0.0 {
      var ih := Min(a.y2, b.y2) - Max(a.y1, b.y1) + 1.0;
      if ih > 0.0 {
        MetBoxes(a, b, iw, ih);
        var ua := (a.x2 - a.x1 + 1.0) * (a.y2 - a.y1 + 1.0) + boxArea - iw * ih;
        return iw * ih / ua;
      }
    }
    ApartBoxes(a, b);
    return 0.0;
  }

  /** Overlaps of all pairs; empty when either side is. */
  method Ious(a: seq<Box>, b: seq<Box>) returns (r: Matrix)
    ensures |a| == 0 || |b| == 0 ==> r == []
    ensures |a| > 0 && |b| > 0 ==>
      Shape(r, |a|, |b|) && forall n, k :: 0 <= n < |a| && 0 <= k < |b| ==> r[n][k] == Iou(a[n], b[k])
  {
    if |a| == 0 || |b| == 0 {
      return [];
    }
    var m := new real[|a|, |b|];
    for k := 0 to |b|
      invariant forall n, c :: 0 <= n < |a| && 0 <= c < k ==> m[n, c] == Iou(a[n], b[c])
    {
      var boxArea := (b[k].x2 - b[k].x1 + 1.0) * (b[k].y2 - b[k].y1 + 1.0);
      for n := 0 to |a|
        invariant forall i, c :: 0 <= i < |a| && 0 <= c < k ==> m[i, c] == Iou(a[i], b[c])
        invariant forall i :: 0 <= i < n ==> m[i, k] == Iou(a[i], b[k])
      {
        m[n, k] := IouCell(a[n], b[k], boxArea);
      }
    }
    r := [];
    for n := 0 to |a|
      invariant |r| == n && forall i :: 0 <= i < n ==> |r[i]| == |b|
      invariant forall i, c :: 0 <= i < n && 0 <= c < |b| ==> r[i][c] == Iou(a[i], b[c])
    {
      r := r + [seq(|b|, c requires 0 <= c < |b| reads m => m[n, c])];
    }
  }

  /** The association costs of two lists of boxes, or nothing when either list is empty. */
  ghost predicate IsDistanceMatrix(a: seq<Box>, b: seq<Box>, cost: Matrix) {
    if |a| == 0 || |b| == 0 then cost == []
    else Shape(cost, |a|, |b|) && forall i, j :: 0 <= i < |a| && 0 <= j < |b| ==> cost[i][j] == Distance(a[i], b[j])
  }

  /** Entry (i, j) is the distance between box `i` of `a` and box `j` of `b`. */
  ghost function DistanceMatrix(a: seq<Box>, b: seq<Box>): (r: Matrix)
    ensures Shape(r, |a|, |b|) && forall i, j :: 0 <= i < |a| && 0 <= j < |b| ==> r[i][j] == Distance(a[i], b[j])
  {
    seq(|a|, i requires 0 <= i < |a| => seq(|b|, j requires 0 <= j < |b| => Distance(a[i], b[j])))
  }

  lemma SameDistances(a: seq<Box>, b: seq<Box>, cost: Matrix)
    requires IsDistanceMatrix(a, b, cost) && a != [] && b != []
    ensures cost == DistanceMatrix(a, b)
  {
    var d := DistanceMatrix(a, b);
    forall i | 0 <= i < |a|
      ensures cost[i] == d[i]
    {
      assert forall j :: 0 <= j < |b| ==> cost[i][j] == d[i][j];
    }
  }

  method IouDistance(a: seq<Box>, b: seq<Box>) returns (cost: Matrix)
    ensures IsDistanceMatrix(a, b, cost)
    ensures forall i, j :: 0 <= i < |cost| && 0 <= j < |cost[i]| ==> 0.0 <= cost[i][j] <= 1.0
  {
    var ious := Ious(a, b);
    cost := [];
    for i := 0 to |ious|
      invariant |cost| == i && forall r :: 0 <= r < i ==> |cost[r]| == |b|
      invariant forall r, j :: 0 <= r < i && 0 <= j < |b| ==> cost[r][j] == Distance(a[r], b[j])
    {
      var row := [];
      for j := 0 to |ious[i]|
        invariant |row| == j && forall c :: 0 <= c < j ==> row[c] == Distance(a[i], b[c])
      {
        row := row + [1.0 - ious[i][j]];
      }
      cost := cost + [row];
    }
    forall i, j | 0 <= i < |cost| && 0 <= j < |cost[i]|
      ensures 0.0 <= cost[i][j] <= 1.0
    {
      IouInUnit(a[i], b[j]);
    }
  }
}
