/** One shortest augmenting path search of the Jonker-Volgenant solver: a Dijkstra over
    columns under reduced costs, from a free row to a free column, with the price update
    that makes the path tight.

    `cols` is kept partitioned: cols[..lo] is READY, cols[lo..hi] is SCAN (all at the
    current least distance) and cols[hi..] is TODO.
 */
module ShortestPath {
  import opened Assignment
  import opened Lapjv

  /** What stays fixed during one search. */
  datatype Problem = Problem(cost: Matrix, n: nat, y: seq<int>, v: seq<real>, start: int) {
    ghost predicate Valid() {
      && Square(cost, n) && |y| == n && |v| == n
      && (forall j :: 0 <= j < n ==> -1 <= y[j] < n)
      && Slack(cost, n, y, v)
      && 0 <= start < n && start !in y
    }
  }

  /** What the search computes: the column order, the distances, the predecessor rows and,
      for the proof, where in `cols` the predecessor row's column stands (-1: the start row). */
  datatype Labels = Labels(cols: seq<int>, d: seq<real>, pred: seq<int>, src: seq<int>) {
    ghost predicate Sized(n: nat) {
      && IsPermutation(cols, n)
      && |d| == n && |pred| == n && |src| == n
    }
  }

  /** Extra reduced cost of leaving row y[c] from column `c` to column `k`. */
  ghost function Step(p: Problem, c: int, k: int): (r: real)
    requires p.Valid() && 0 <= c < p.n && 0 <= k < p.n && p.y[c] >= 0
    ensures r >= 0.0
  {
    assert Tight(p.cost, p.n, p.v, p.y[c], c);
    Red(p.cost, p.v, p.y[c], k) - Red(p.cost, p.v, p.y[c], c)
  }

  /** The label of column `c` is the length of a real path through READY or current columns. */
  ghost predicate Derived(p: Problem, t: Labels, scanned: nat, c: int)
    requires p.Valid() && t.Sized(p.n) && scanned <= p.n && 0 <= c < p.n
  {
    if t.src[c] == -1 then
      t.pred[c] == p.start && t.d[c] == Red(p.cost, p.v, p.start, c)
    else
      && 0 <= t.src[c] < scanned
      && var b := t.cols[t.src[c]];
         && p.y[b] >= 0 && t.pred[c] == p.y[b]
         && t.d[c] == t.d[b] + Step(p, b, c)
  }

  /** No label can be improved through scanned column `b`. */
  ghost predicate Relaxed(p: Problem, t: Labels, b: int, c: int)
    requires p.Valid() && t.Sized(p.n) && 0 <= b < p.n && 0 <= c < p.n && p.y[b] >= 0
  {
    t.d[c] <= t.d[b] + Step(p, b, c)
  }

  ghost predicate Labelled(p: Problem, t: Labels, scanned: nat)
    requires p.Valid() && scanned <= p.n
  {
    && t.Sized(p.n)
    && (forall s :: 0 <= s < scanned ==> p.y[t.cols[s]] >= 0)
    && (forall c :: 0 <= c < p.n ==> t.d[c] <= Red(p.cost, p.v, p.start, c))
    && (forall c :: 0 <= c < p.n ==> Derived(p, t, scanned, c))
    && (forall s :: 0 <= s < p.n ==> t.src[t.cols[s]] < s)
  }

  ghost predicate AllRelaxed(p: Problem, t: Labels, done: nat)
    requires p.Valid() && t.Sized(p.n) && done <= p.n
    requires forall s :: 0 <= s < done ==> p.y[t.cols[s]] >= 0
  {
    forall s, c :: 0 <= s < done && 0 <= c < p.n ==> Relaxed(p, t, t.cols[s], c)
  }

  /** No label among the first `k` columns can be improved through column `b`. */
  ghost predicate RelaxedUpTo(p: Problem, t: Labels, b: int, k: nat)
    requires p.Valid() && t.Sized(p.n) && 0 <= b < p.n && p.y[b] >= 0 && k <= p.n
  {
    forall q :: 0 <= q < k ==> Relaxed(p, t, b, t.cols[q])
  }

  /** Distances never exceed `level` before `ready`, equal it up to `hi` and reach it after. */
  ghost predicate Levels(n: nat, cols: seq<int>, d: seq<real>, ready: nat, hi: nat, level: real)
    requires IsPermutation(cols, n) && |d| == n && ready <= hi <= n
  {
    && (forall s :: 0 <= s < ready ==> d[cols[s]] <= level)
    && (forall s :: ready <= s < hi ==> d[cols[s]] == level)
    && (forall s :: hi <= s < n ==> d[cols[s]] >= level)
  }

  // ---------------------------------------------------------------- the order of columns

  function Swapped(s: seq<int>, a: int, b: int): seq<int>
    requires 0 <= a < |s| && 0 <= b < |s|
  {
    s[a := s[b]][b := s[a]]
  }

  lemma SwapKeepsPermutation(s: seq<int>, n: nat, a: int, b: int)
    requires IsPermutation(s, n) && 0 <= a < n && 0 <= b < n
    ensures IsPermutation(Swapped(s, a, b), n)
  {
  }

  /** Moves the TODO columns at least distance to the front of TODO; cols[lo..hi] are then
      exactly those columns. */
  method FindLeast(n: nat, lo: nat, d: array<real>, cols: array<int>) returns (hi: nat)
    requires lo < n && d.Length == cols.Length == n && IsPermutation(cols[..], n)
    modifies cols
    ensures lo < hi <= n && IsPermutation(cols[..], n)
    ensures cols[..lo] == old(cols[..lo])
    ensures forall k :: lo <= k < hi ==> d[cols[k]] == d[cols[lo]]
    ensures forall k :: hi <= k < n ==> d[cols[k]] > d[cols[lo]]
  {
    hi := lo + 1;
    var mind := d[cols[lo]];
    for k := hi to n
      invariant lo < hi <= k && IsPermutation(cols[..], n)
      invariant cols[..lo] == old(cols[..lo])
      invariant forall q :: lo <= q < hi ==> d[cols[q]] == mind
      invariant forall q :: hi <= q < k ==> d[cols[q]] > mind
    {
      var j := cols[k];
      if d[j] <= mind {
        if d[j] < mind {
          hi := lo;
          mind := d[j];
        }
        SwapKeepsPermutation(cols[..], n, k, hi);
        ghost var swapped := Swapped(cols[..], k, hi);
        cols[k] := cols[hi];
        cols[hi] := j;
        assert cols[..] == swapped;
        hi := hi + 1;
      }
    }
  }

  // ---------------------------------------------------------------- scanning

  /** Everything the arrays say while the column at position `lo - 1` is being scanned. */
  ghost predicate Scanning(p: Problem, t: Labels, ready: nat, lo: nat, hi: nat, level: real)
    requires p.Valid()
  {
    && ready < lo <= hi <= p.n
    && Labelled(p, t, lo) && AllRelaxed(p, t, lo - 1) && Levels(p.n, t.cols, t.d, ready, hi, level)
    && (forall s :: 0 <= s < hi ==> p.y[t.cols[s]] >= 0)
  }

  /** A shorter way to TODO column `c` was found through the column at position `lo - 1`. */
  ghost function Relabelled(p: Problem, t: Labels, lo: nat, c: int, dist: real): Labels
    requires p.Valid() && t.Sized(p.n) && 1 <= lo <= p.n && 0 <= c < p.n
  {
    t.(d := t.d[c := dist], pred := t.pred[c := p.y[t.cols[lo - 1]]], src := t.src[c := lo - 1])
  }

  lemma RelabelKeepsDerived(p: Problem, t: Labels, lo: nat, c: int, k: int, dist: real, m: int)
    requires p.Valid() && 1 <= lo <= k < p.n && Labelled(p, t, lo) && 0 <= m < p.n
    requires c == t.cols[k] && dist == t.d[t.cols[lo - 1]] + Step(p, t.cols[lo - 1], c)
    ensures Derived(p, Relabelled(p, t, lo, c, dist), lo, m)
  {
    assert forall s :: 0 <= s < k ==> t.cols[s] != c;
    assert Derived(p, t, lo, m);
  }

  lemma RelabelKeepsScanning(p: Problem, t: Labels, ready: nat, lo: nat, hi: nat, level: real, c: int, k: int,
                             dist: real)
    requires p.Valid() && hi <= k < p.n && Scanning(p, t, ready, lo, hi, level)
    requires RelaxedUpTo(p, t, t.cols[lo - 1], k)
    requires c == t.cols[k] && dist == level + Step(p, t.cols[lo - 1], c) && dist < t.d[c]
    ensures var t' := Relabelled(p, t, lo, c, dist);
      Scanning(p, t', ready, lo, hi, level) && RelaxedUpTo(p, t', t.cols[lo - 1], k + 1)
  {
    var b := t.cols[lo - 1];
    var t' := Relabelled(p, t, lo, c, dist);
    assert forall s :: 0 <= s < p.n && s != k ==> t.cols[s] != c;
    forall m | 0 <= m < p.n
      ensures Derived(p, t', lo, m)
    {
      RelabelKeepsDerived(p, t, lo, c, k, dist, m);
    }
    forall s, m | 0 <= s < lo - 1 && 0 <= m < p.n
      ensures Relaxed(p, t', t'.cols[s], m)
    {
      assert Relaxed(p, t, t.cols[s], m);
    }
    forall s | 0 <= s < p.n
      ensures t'.src[t'.cols[s]] < s
    {
      assert t.src[t.cols[s]] < s;
    }
    forall q | 0 <= q < k + 1
      ensures Relaxed(p, t', b, t'.cols[q])
    {
      assert q < k ==> Relaxed(p, t, b, t.cols[q]);
    }
  }

  /** Swapping two TODO columns changes nothing that the labels say. */
  lemma SwapKeepsScanning(p: Problem, t: Labels, ready: nat, lo: nat, hi: nat, level: real, k: int)
    requires p.Valid() && hi <= k < p.n && Scanning(p, t, ready, lo, hi, level)
    requires t.d[t.cols[k]] == level && p.y[t.cols[k]] >= 0 && RelaxedUpTo(p, t, t.cols[lo - 1], k + 1)
    ensures var t' := t.(cols := Swapped(t.cols, k, hi));
      && Scanning(p, t', ready, lo, hi + 1, level) && RelaxedUpTo(p, t', t.cols[lo - 1], k + 1)
      && t'.cols[..lo] == t.cols[..lo]
  {
    var t' := t.(cols := Swapped(t.cols, k, hi));
    SwapKeepsPermutation(t.cols, p.n, k, hi);
    assert forall s :: 0 <= s < lo ==> t'.cols[s] == t.cols[s];
    forall m | 0 <= m < p.n
      ensures Derived(p, t', lo, m)
    {
      assert Derived(p, t, lo, m);
    }
    forall s, m | 0 <= s < lo - 1 && 0 <= m < p.n
      ensures Relaxed(p, t', t'.cols[s], m)
    {
      assert Relaxed(p, t, t.cols[s], m);
    }
    forall s | 0 <= s < p.n
      ensures t'.src[t'.cols[s]] < s
    {
      assert t.src[t.cols[s]] < s;
      assert Derived(p, t, lo, t'.cols[s]);
    }
    forall q | 0 <= q < k + 1
      ensures Relaxed(p, t', t.cols[lo - 1], t'.cols[q])
    {
      assert Relaxed(p, t, t.cols[lo - 1], t.cols[if q == k then hi else if q == hi then k else q]);
    }
  }

  /** Columns no farther than the current level cannot be improved. */
  lemma NearColumnsRelaxed(p: Problem, t: Labels, ready: nat, lo: nat, hi: nat, level: real)
    requires p.Valid() && Scanning(p, t, ready, lo, hi, level)
    ensures RelaxedUpTo(p, t, t.cols[lo - 1], hi)
  {
  }

  lemma ScannedColumnRelaxed(p: Problem, t: Labels, ready: nat, lo: nat, hi: nat, level: real)
    requires p.Valid() && Scanning(p, t, ready, lo, hi, level) && RelaxedUpTo(p, t, t.cols[lo - 1], p.n)
    ensures AllRelaxed(p, t, lo)
  {
    forall s, c | 0 <= s < lo && 0 <= c < p.n
      ensures Relaxed(p, t, t.cols[s], c)
    {
      if s == lo - 1 {
        PermutationCovers(t.cols, p.n, c);
        var q :| 0 <= q < p.n && t.cols[q] == c;
        assert Relaxed(p, t, t.cols[lo - 1], t.cols[q]);
      }
    }
  }

  /** Labels and end of SCAN after looking at the TODO column at position `k`. */
  ghost function Looked(p: Problem, t: Labels, lo: nat, hi: nat, level: real, k: nat): (Labels, nat)
    requires p.Valid() && t.Sized(p.n) && 1 <= lo <= hi <= k < p.n && p.y[t.cols[lo - 1]] >= 0
  {
    var b, c := t.cols[lo - 1], t.cols[k];
    var dist := level + Step(p, b, c);
    if dist >= t.d[c] then (t, hi) else
    var t' := Relabelled(p, t, lo, c, dist);
    if dist == level && p.y[c] >= 0 then (t'.(cols := Swapped(t'.cols, k, hi)), hi + 1) else (t', hi)
  }

  /** The column at position `k` is a free column first reached at the current level. */
  ghost predicate Reaches(p: Problem, t: Labels, lo: nat, level: real, k: nat)
    requires p.Valid() && t.Sized(p.n) && 1 <= lo <= k < p.n && p.y[t.cols[lo - 1]] >= 0
  {
    Step(p, t.cols[lo - 1], t.cols[k]) == 0.0 && level < t.d[t.cols[k]] && p.y[t.cols[k]] < 0
  }

  lemma LookKeepsScanning(p: Problem, t: Labels, ready: nat, lo: nat, hi: nat, level: real, k: nat)
    requires p.Valid() && Scanning(p, t, ready, lo, hi, level) && hi <= k < p.n
    requires RelaxedUpTo(p, t, t.cols[lo - 1], k)
    ensures var (t', hi') := Looked(p, t, lo, hi, level, k);
      && Scanning(p, t', ready, lo, hi', level) && RelaxedUpTo(p, t', t.cols[lo - 1], k + 1)
      && t'.cols[..lo] == t.cols[..lo]
      && (Reaches(p, t, lo, level, k) ==> hi' == hi && t'.cols == t.cols && t'.d[t.cols[k]] == level)
  {
    var b, c := t.cols[lo - 1], t.cols[k];
    var dist := level + Step(p, b, c);
    if dist < t.d[c] {
      RelabelKeepsScanning(p, t, ready, lo, hi, level, c, k, dist);
      var t' := Relabelled(p, t, lo, c, dist);
      if dist == level && p.y[c] >= 0 {
        SwapKeepsScanning(p, t', ready, lo, hi, level, k);
      }
    }
  }

  /** Looks at the TODO column at position `k` from row `i`, whose least reduced cost less the
      current level is `h`: shortens its label if it can, and then stops at a free column
      of the current level or moves an assigned one to SCAN. */
  method LookAt(cost: Matrix, i: int, h: real, mind: real, hi0: nat, k: nat, d: array<real>, cols: array<int>,
                pred: array<int>, y: array<int>, v: array<real>, ghost p: Problem, ghost src0: seq<int>, ghost lo: nat)
    returns (found: int, hi: nat, ghost src: seq<int>)
    requires p.Valid() && p.cost == cost && p.y == y[..] && p.v == v[..] && |src0| == p.n
    requires d.Length == cols.Length == pred.Length == p.n
    requires d != v && cols != pred && cols != y && pred != y
    requires 1 <= lo <= hi0 <= k < p.n && IsPermutation(cols[..], p.n)
    requires i == y[cols[lo - 1]] && i >= 0 && h == Red(cost, p.v, i, cols[lo - 1]) - mind
    modifies d, cols, pred
    ensures (Labels(cols[..], d[..], pred[..], src), hi)
            == Looked(p, old(Labels(cols[..], d[..], pred[..], src0)), lo, hi0, mind, k)
    ensures found == if Reaches(p, old(Labels(cols[..], d[..], pred[..], src0)), lo, mind, k) then old(cols[k]) else -1
  {
    found, hi, src := -1, hi0, src0;
    var j := cols[k];
    var credIj := cost[i][j] - v[j] - h;
    if credIj < d[j] {
      d[j] := credIj;
      pred[j] := i;
      src := src[j := lo - 1];
      if credIj == mind {
        if y[j] < 0 {
          return j, hi, src;
        }
        cols[k] := cols[hi];
        cols[hi] := j;
        hi := hi + 1;
      }
    }
  }

  /** Relaxes every TODO column through the column just taken off SCAN. Returns a free column
      as soon as one is found at the current level, with its position `at` in `cols`. */
  method RelaxColumn(n: nat, cost: Matrix, lo: nat, hi0: nat, d: array<real>, cols: array<int>, pred: array<int>,
                     y: array<int>, v: array<real>, ghost p: Problem, ghost src0: seq<int>, ghost ready: nat,
                     ghost level: real)
    returns (found: int, hi: nat, ghost src: seq<int>, ghost at: nat)
    requires p.Valid() && p.n == n && p.cost == cost && p.y == y[..] && p.v == v[..]
    requires d.Length == cols.Length == pred.Length == n
    requires d != v && cols != pred && cols != y && pred != y
    requires Scanning(p, Labels(cols[..], d[..], pred[..], src0), ready, lo, hi0, level)
    modifies d, cols, pred
    ensures cols[..lo] == old(cols[..lo]) && hi0 <= hi <= n
    ensures Scanning(p, Labels(cols[..], d[..], pred[..], src), ready, lo, hi, level)
    ensures if found == -1 then AllRelaxed(p, Labels(cols[..], d[..], pred[..], src), lo)
            else 0 <= found < n && y[found] < 0 && hi <= at < n && cols[at] == found && d[found] == level
  {
    hi, src, at, found := hi0, src0, 0, -1;
    var j := cols[lo - 1];
    var i := y[j];
    var mind := d[j];
    var h := cost[i][j] - v[j] - mind;
    ghost var t := Labels(cols[..], d[..], pred[..], src);
    NearColumnsRelaxed(p, t, ready, lo, hi, level);
    for k := hi to n
      invariant hi0 <= hi <= k && t == Labels(cols[..], d[..], pred[..], src)
      invariant cols[..lo] == old(cols[..lo]) && t.cols[lo - 1] == j
      invariant Scanning(p, t, ready, lo, hi, level) && RelaxedUpTo(p, t, j, k)
    {
      LookKeepsScanning(p, t, ready, lo, hi, level, k);
      found, hi, src := LookAt(cost, i, h, mind, hi, k, d, cols, pred, y, v, p, src, lo);
      assert t.cols[..lo][lo - 1] == j;
      t := Labels(cols[..], d[..], pred[..], src);
      if found != -1 {
        at := k;
        return;
      }
    }
    ScannedColumnRelaxed(p, t, ready, lo, hi, level);
  }

  /** Everything the arrays say when a SCAN column is about to be taken, or none is left. */
  ghost predicate BetweenScans(p: Problem, t: Labels, ready: nat, lo: nat, hi: nat, level: real)
    requires p.Valid()
  {
    && ready <= lo <= hi <= p.n
    && Labelled(p, t, lo) && AllRelaxed(p, t, lo) && Levels(p.n, t.cols, t.d, ready, hi, level)
    && (forall s :: 0 <= s < hi ==> p.y[t.cols[s]] >= 0)
  }

  /** The search is over: column t.cols[at] is free and at the current level, and every
      column before `ready` has been scanned in full. */
  ghost predicate Arrived(p: Problem, t: Labels, ready: nat, scanned: nat, hi: nat, level: real, at: nat)
    requires p.Valid()
  {
    && ready <= scanned <= at < p.n && ready < hi <= p.n
    && Labelled(p, t, scanned) && AllRelaxed(p, t, ready) && Levels(p.n, t.cols, t.d, ready, hi, level)
    && p.y[t.cols[at]] < 0 && t.d[t.cols[at]] == level
  }

  lemma TakeFromScan(p: Problem, t: Labels, ready: nat, lo: nat, hi: nat, level: real)
    requires p.Valid() && BetweenScans(p, t, ready, lo, hi, level) && lo < hi
    ensures Scanning(p, t, ready, lo + 1, hi, level)
  {
    var lo' := lo + 1;
    forall c | 0 <= c < p.n
      ensures Derived(p, t, lo', c)
    {
      assert Derived(p, t, lo, c);
    }
  }

  /** Scans the columns of SCAN until TODO has been relaxed through all of them or a free
      column turns up. In that case `lo` and `hi` are handed back as they came. */
  method ScanColumns(n: nat, cost: Matrix, lo0: nat, hi0: nat, d: array<real>, cols: array<int>, pred: array<int>,
                     y: array<int>, v: array<real>, ghost p: Problem, ghost src0: seq<int>, ghost level: real)
    returns (found: int, lo: nat, hi: nat, ghost src: seq<int>, ghost scanned: nat, ghost at: nat, ghost end: nat)
    requires p.Valid() && p.n == n && p.cost == cost && p.y == y[..] && p.v == v[..]
    requires d.Length == cols.Length == pred.Length == n
    requires d != v && cols != pred && cols != y && pred != y
    requires lo0 < hi0 && BetweenScans(p, Labels(cols[..], d[..], pred[..], src0), lo0, lo0, hi0, level)
    modifies d, cols, pred
    ensures found != -1 ==> lo == lo0 && hi == hi0 && cols[lo] == old(cols[lo0]) && at < n && cols[at] == found
    ensures found != -1 ==> Arrived(p, Labels(cols[..], d[..], pred[..], src), lo0, scanned, end, level, at)
    ensures found == -1 ==>
      lo0 < lo == hi && BetweenScans(p, Labels(cols[..], d[..], pred[..], src), lo0, lo, hi, level)
  {
    lo, hi, src, found, scanned, at, end := lo0, hi0, src0, -1, lo0, 0, hi0;
    while lo != hi
      invariant lo0 <= lo <= hi && found == -1 && hi > lo0
      invariant cols[lo0] == old(cols[lo0])
      invariant BetweenScans(p, Labels(cols[..], d[..], pred[..], src), lo0, lo, hi, level)
      decreases n - lo
    {
      TakeFromScan(p, Labels(cols[..], d[..], pred[..], src), lo0, lo, hi, level);
      lo := lo + 1;
      ghost var before := cols[..lo];
      found, hi, src, at := RelaxColumn(n, cost, lo, hi, d, cols, pred, y, v, p, src, lo0, level);
      assert cols[lo0] == cols[..lo][lo0] == before[lo0];
      if found != -1 {
        scanned, end := lo, hi;
        lo, hi := lo0, hi0;
        return;
      }
    }
  }

  // ---------------------------------------------------------------- the path and the prices

  /** Columns from a free column back to the start row's: each is reached from the row of the
      next one, the last from the start row, and every such row is tight there under prices `w`. */
  ghost predicate AugmentingPath(cost: Matrix, n: nat, y: seq<int>, w: seq<real>, pred: seq<int>, start: int,
                                 path: seq<int>)
    requires Square(cost, n) && |y| == n && |w| == n && |pred| == n
  {
    && |path| >= 1 && Distinct(path)
    && (forall t :: 0 <= t < |path| ==> 0 <= path[t] < n && 0 <= pred[path[t]] < n)
    && (forall t :: 0 <= t < |path| ==> Tight(cost, n, w, pred[path[t]], path[t]))
    && y[path[0]] < 0
    && (forall t :: 1 <= t < |path| ==> y[path[t]] >= 0 && pred[path[t - 1]] == y[path[t]])
    && pred[path[|path| - 1]] == start
  }

  /** A way from the start row to column walk[0], listed backwards. */
  ghost predicate IsWalk(p: Problem, walk: seq<int>)
    requires p.Valid()
  {
    && |walk| >= 1
    && (forall t :: 0 <= t < |walk| ==> 0 <= walk[t] < p.n)
    && (forall t :: 1 <= t < |walk| ==> p.y[walk[t]] >= 0)
  }

  ghost function WalkLength(p: Problem, walk: seq<int>): real
    requires p.Valid() && IsWalk(p, walk)
  {
    if |walk| == 1 then Red(p.cost, p.v, p.start, walk[0])
    else WalkLength(p, walk[1..]) + Step(p, walk[1], walk[0])
  }

  /** No way from the start row to a free column is shorter than `path`. */
  ghost predicate Shortest(p: Problem, path: seq<int>)
    requires p.Valid()
  {
    && IsWalk(p, path) && p.y[path[0]] < 0
    && forall walk :: IsWalk(p, walk) && p.y[walk[0]] < 0 ==> WalkLength(p, path) <= WalkLength(p, walk)
  }

  /** Prices after the search: READY columns give up what they are short of the level. */
  ghost predicate Repriced(n: nat, t: Labels, v: seq<real>, w: seq<real>, ready: nat, level: real)
    requires t.Sized(n) && |v| == n && |w| == n && ready <= n
  {
    && (forall s :: 0 <= s < ready ==> w[t.cols[s]] == v[t.cols[s]] + t.d[t.cols[s]] - level)
    && (forall s :: ready <= s < n ==> w[t.cols[s]] == v[t.cols[s]])
  }

  ghost function Capped(t: Labels, level: real, c: int): real
    requires 0 <= c < |t.d|
  {
    if t.d[c] < level then t.d[c] else level
  }

  lemma RepricedColumn(p: Problem, t: Labels, ready: nat, scanned: nat, hi: nat, level: real, at: nat, w: seq<real>,
                       c: int)
    requires p.Valid() && Arrived(p, t, ready, scanned, hi, level, at) && |w| == p.n
    requires Repriced(p.n, t, p.v, w, ready, level) && 0 <= c < p.n
    ensures w[c] == p.v[c] + Capped(t, level, c) - level
  {
    PermutationCovers(t.cols, p.n, c);
    var s :| 0 <= s < p.n && t.cols[s] == c;
  }

  /** Capped labels obey the triangle inequality through every assigned column. */
  lemma CappedTriangle(p: Problem, t: Labels, ready: nat, scanned: nat, hi: nat, level: real, at: nat, b: int, c: int)
    requires p.Valid() && Arrived(p, t, ready, scanned, hi, level, at)
    requires 0 <= b < p.n && 0 <= c < p.n && p.y[b] >= 0
    ensures Capped(t, level, c) <= Capped(t, level, b) + Step(p, b, c)
  {
    PermutationCovers(t.cols, p.n, b);
    var s :| 0 <= s < p.n && t.cols[s] == b;
    if s < ready {
      assert Relaxed(p, t, t.cols[s], c);
    }
  }

  lemma RepricingKeepsSlack(p: Problem, t: Labels, ready: nat, scanned: nat, hi: nat, level: real, at: nat,
                            w: seq<real>)
    requires p.Valid() && Arrived(p, t, ready, scanned, hi, level, at) && |w| == p.n
    requires Repriced(p.n, t, p.v, w, ready, level)
    ensures Slack(p.cost, p.n, p.y, w)
  {
    forall b, c | 0 <= b < p.n && p.y[b] >= 0 && 0 <= c < p.n
      ensures Red(p.cost, w, p.y[b], b) <= Red(p.cost, w, p.y[b], c)
    {
      CappedTriangle(p, t, ready, scanned, hi, level, at, b, c);
      RepricedColumn(p, t, ready, scanned, hi, level, at, w, b);
      RepricedColumn(p, t, ready, scanned, hi, level, at, w, c);
    }
  }

  /** The edge that gave column `c` its label is tight after repricing. */
  lemma LabelEdgeTight(p: Problem, t: Labels, ready: nat, scanned: nat, hi: nat, level: real, at: nat, w: seq<real>,
                       c: int)
    requires p.Valid() && Arrived(p, t, ready, scanned, hi, level, at) && |w| == p.n
    requires Repriced(p.n, t, p.v, w, ready, level) && 0 <= c < p.n && t.d[c] <= level
    ensures 0 <= t.pred[c] < p.n && Tight(p.cost, p.n, w, t.pred[c], c)
  {
    assert Derived(p, t, scanned, c);
    RepricedColumn(p, t, ready, scanned, hi, level, at, w, c);
    forall m | 0 <= m < p.n
      ensures Red(p.cost, w, t.pred[c], c) <= Red(p.cost, w, t.pred[c], m)
    {
      RepricedColumn(p, t, ready, scanned, hi, level, at, w, m);
      if t.src[c] != -1 {
        CappedTriangle(p, t, ready, scanned, hi, level, at, t.cols[t.src[c]], m);
      }
    }
  }

  /** `path` follows predecessors back to the start row and is as long as its first label. */
  ghost predicate Traced(p: Problem, t: Labels, path: seq<int>)
    requires p.Valid() && t.Sized(p.n)
  {
    && IsWalk(p, path) && WalkLength(p, path) == t.d[path[0]]
    && (forall k :: 0 <= k < |path| ==> t.d[path[k]] <= t.d[path[0]])
    && (forall k :: 1 <= k < |path| ==> t.pred[path[k - 1]] == p.y[path[k]])
    && t.pred[path[|path| - 1]] == p.start
  }

  lemma ExtendTrace(p: Problem, t: Labels, scanned: nat, c: int, rest: seq<int>)
    requires p.Valid() && t.Sized(p.n) && scanned <= p.n && 0 <= c < p.n && Derived(p, t, scanned, c)
    requires t.src[c] != -1 && Traced(p, t, rest) && rest[0] == t.cols[t.src[c]]
    ensures Traced(p, t, [c] + rest)
  {
    var path := [c] + rest;
    assert path[1..] == rest;
    assert forall k :: 1 <= k < |path| ==> path[k] == rest[k - 1];
    assert IsWalk(p, path);
    assert t.d[c] == t.d[rest[0]] + Step(p, rest[0], c);
  }

  lemma ExtendDistinct(cols: seq<int>, n: nat, q: nat, s: nat, rest: seq<int>)
    requires IsPermutation(cols, n) && q < s < n && Distinct(rest)
    requires forall k :: 0 <= k < |rest| ==> rest[k] in cols[..q + 1]
    ensures Distinct([cols[s]] + rest)
    ensures forall k :: 0 <= k < |rest| + 1 ==> ([cols[s]] + rest)[k] in cols[..s + 1]
  {
    var path := [cols[s]] + rest;
    assert cols[..s + 1][s] == cols[s];
    forall k | 1 <= k < |path|
      ensures path[k] in cols[..s + 1] && path[k] != cols[s]
    {
      assert path[k] == rest[k - 1];
      var m :| 0 <= m < q + 1 && cols[..q + 1][m] == rest[k - 1];
      assert cols[..s + 1][m] == rest[k - 1];
    }
  }

  /** Following predecessors from position `s` of `cols` strictly climbs back to the start row. */
  lemma {:induction false} TracePath(p: Problem, t: Labels, scanned: nat, s: nat) returns (path: seq<int>)
    requires p.Valid() && scanned <= p.n && Labelled(p, t, scanned) && s < p.n
    ensures Traced(p, t, path) && path[0] == t.cols[s]
    ensures Distinct(path) && forall k :: 0 <= k < |path| ==> path[k] in t.cols[..s + 1]
    decreases s
  {
    var c := t.cols[s];
    assert Derived(p, t, scanned, c);
    if t.src[c] == -1 {
      path := [c];
      assert t.cols[..s + 1][s] == c;
    } else {
      var q := t.src[c];
      var rest := TracePath(p, t, scanned, q);
      path := [c] + rest;
      ExtendTrace(p, t, scanned, c, rest);
      ExtendDistinct(t.cols, p.n, q, s, rest);
    }
  }

  /** The path traced from the free column is augmenting and shortest. */
  lemma ArrivedPath(p: Problem, t: Labels, ready: nat, scanned: nat, hi: nat, level: real, at: nat, w: seq<real>)
    returns (path: seq<int>)
    requires p.Valid() && Arrived(p, t, ready, scanned, hi, level, at) && |w| == p.n
    requires Repriced(p.n, t, p.v, w, ready, level)
    ensures |path| >= 1 && path[0] == t.cols[at]
    ensures AugmentingPath(p.cost, p.n, p.y, w, t.pred, p.start, path) && Shortest(p, path)
  {
    path := TracePath(p, t, scanned, at);
    forall k | 0 <= k < |path|
      ensures 0 <= t.pred[path[k]] < p.n && Tight(p.cost, p.n, w, t.pred[path[k]], path[k])
    {
      LabelEdgeTight(p, t, ready, scanned, hi, level, at, w, path[k]);
    }
    ArrivedIsShortest(p, t, ready, scanned, hi, level, at, path);
  }

  /** Every way to a free column is at least as long as the level. */
  lemma {:induction false} WalksAreLong(p: Problem, t: Labels, ready: nat, scanned: nat, hi: nat, level: real, at: nat,
                                        walk: seq<int>)
    requires p.Valid() && Arrived(p, t, ready, scanned, hi, level, at) && IsWalk(p, walk)
    ensures Capped(t, level, walk[0]) <= WalkLength(p, walk)
    decreases |walk|
  {
    if |walk| > 1 {
      WalksAreLong(p, t, ready, scanned, hi, level, at, walk[1..]);
      CappedTriangle(p, t, ready, scanned, hi, level, at, walk[1], walk[0]);
    }
  }

  lemma ArrivedIsShortest(p: Problem, t: Labels, ready: nat, scanned: nat, hi: nat, level: real, at: nat,
                          path: seq<int>)
    requires p.Valid() && Arrived(p, t, ready, scanned, hi, level, at)
    requires IsWalk(p, path) && path[0] == t.cols[at] && WalkLength(p, path) == level
    ensures Shortest(p, path)
  {
    forall walk | IsWalk(p, walk) && p.y[walk[0]] < 0
      ensures WalkLength(p, path) <= WalkLength(p, walk)
    {
      WalksAreLong(p, t, ready, scanned, hi, level, at, walk);
      PermutationCovers(t.cols, p.n, walk[0]);
      var s :| 0 <= s < p.n && t.cols[s] == walk[0];
      assert s >= scanned;
    }
  }

  // ---------------------------------------------------------------- the search

  /** No READY column is farther than a TODO column. */
  ghost predicate NearFirst(n: nat, cols: seq<int>, d: seq<real>, lo: nat)
    requires IsPermutation(cols, n) && |d| == n && lo <= n
  {
    forall a, b :: 0 <= a < lo <= b < n ==> d[cols[a]] <= d[cols[b]]
  }

  /** The state in which the search looks for the next level: SCAN is empty. */
  ghost predicate Levelled(p: Problem, t: Labels, lo: nat)
    requires p.Valid()
  {
    && lo <= p.n && Labelled(p, t, lo) && AllRelaxed(p, t, lo) && NearFirst(p.n, t.cols, t.d, lo)
  }

  lemma InitialLabels(p: Problem, t: Labels)
    requires p.Valid() && |t.cols| == |t.d| == |t.pred| == |t.src| == p.n
    requires forall c :: 0 <= c < p.n ==>
      t.cols[c] == c && t.pred[c] == p.start && t.src[c] == -1 && t.d[c] == Red(p.cost, p.v, p.start, c)
    ensures Levelled(p, t, 0)
  {
    forall c | 0 <= c < p.n
      ensures Derived(p, t, 0, c)
    {
    }
  }

  /** Reordering TODO so that its nearest columns come first keeps the labels; those columns become SCAN. */
  lemma ReorderedTodo(p: Problem, t: Labels, cols: seq<int>, lo: nat, hi: nat)
    requires p.Valid() && Levelled(p, t, lo) && IsPermutation(cols, p.n) && lo < hi <= p.n
    requires cols[..lo] == t.cols[..lo]
    requires forall k :: lo <= k < hi ==> t.d[cols[k]] == t.d[cols[lo]]
    requires forall k :: hi <= k < p.n ==> t.d[cols[k]] > t.d[cols[lo]]
    ensures var t' := t.(cols := cols);
      && Labelled(p, t', lo) && AllRelaxed(p, t', lo)
      && Levels(p.n, cols, t.d, lo, hi, t.d[cols[lo]])
  {
    var t' := t.(cols := cols);
    assert forall s :: 0 <= s < lo ==> cols[s] == cols[..lo][s] == t.cols[s];
    forall c | 0 <= c < p.n
      ensures Derived(p, t', lo, c)
    {
      assert Derived(p, t, lo, c);
    }
    forall s | 0 <= s < p.n
      ensures t'.src[t'.cols[s]] < s
    {
      assert Derived(p, t, lo, cols[s]);
      assert t.src[t.cols[s]] < s;
    }
    forall s, c | 0 <= s < lo && 0 <= c < p.n
      ensures Relaxed(p, t', cols[s], c)
    {
      assert Relaxed(p, t, t.cols[s], c);
    }
    PermutationCovers(t.cols, p.n, cols[lo]);
    var q :| 0 <= q < p.n && t.cols[q] == cols[lo];
    assert q >= lo;
  }

  lemma ScannedLevel(p: Problem, t: Labels, ready: nat, lo: nat, level: real)
    requires p.Valid() && BetweenScans(p, t, ready, lo, lo, level)
    ensures Levelled(p, t, lo)
  {
  }

  /** The free column is not READY, so TODO is not empty. */
  lemma TodoNotEmpty(p: Problem, t: Labels, lo: nat, u: int)
    requires p.Valid() && Levelled(p, t, lo) && 0 <= u < p.n && p.y[u] < 0
    ensures lo < p.n
  {
    PermutationCovers(t.cols, p.n, u);
    var q :| 0 <= q < p.n && t.cols[q] == u;
  }

  method InitLabels(n: nat, cost: Matrix, startI: int, d: array<real>, cols: array<int>, pred: array<int>,
                    v: array<real>, ghost p: Problem, ghost src: seq<int>)
    requires p.Valid() && p.n == n && p.cost == cost && p.v == v[..] && p.start == startI
    requires d.Length == cols.Length == pred.Length == n && d != v && cols != pred
    requires |src| == n && forall c :: 0 <= c < n ==> src[c] == -1
    modifies d, cols, pred
    ensures Levelled(p, Labels(cols[..], d[..], pred[..], src), 0)
  {
    for i := 0 to n
      invariant forall k :: 0 <= k < i ==> cols[k] == k && pred[k] == startI && d[k] == Red(cost, p.v, startI, k)
    {
      cols[i] := i;
      pred[i] := startI;
      d[i] := cost[startI][i] - v[i];
    }
    InitialLabels(p, Labels(cols[..], d[..], pred[..], src));
  }

  /** The last free column of SCAN and where it is. */
  method LastFree(lo: nat, hi: nat, cols: array<int>, y: array<int>) returns (finalJ: int, ghost at: nat)
    requires lo < hi <= cols.Length && forall k :: lo <= k < hi ==> 0 <= cols[k] < y.Length
    ensures lo <= at < hi
    ensures finalJ == -1 ==> forall k :: lo <= k < hi ==> y[cols[k]] >= 0
    ensures finalJ != -1 ==> cols[at] == finalJ && y[finalJ] < 0 && forall k :: at < k < hi ==> y[cols[k]] >= 0
  {
    finalJ, at := -1, lo;
    for k := lo to hi
      invariant finalJ == -1 ==> forall q :: lo <= q < k ==> y[cols[q]] >= 0
      invariant finalJ != -1 ==>
        lo <= at < k && cols[at] == finalJ && y[finalJ] < 0 && forall q :: at < q < k ==> y[cols[q]] >= 0
      invariant lo <= at < hi
    {
      var j := cols[k];
      if y[j] < 0 {
        finalJ, at := j, k;
      }
    }
  }

  /** Puts the nearest TODO columns on SCAN and returns the last free one among them, if any. */
  method NextLevel(n: nat, lo: nat, d: array<real>, cols: array<int>, pred: array<int>, y: array<int>,
                   ghost p: Problem, ghost src: seq<int>, ghost u: int)
    returns (finalJ: int, hi: nat, ghost level: real, ghost at: nat)
    requires p.Valid() && p.n == n && p.y == y[..] && 0 <= u < n && y[u] < 0
    requires d.Length == cols.Length == pred.Length == n && cols != y && cols != pred
    requires Levelled(p, Labels(cols[..], d[..], pred[..], src), lo)
    modifies cols
    ensures lo < hi <= n
    ensures var t := Labels(cols[..], d[..], pred[..], src);
      if finalJ == -1 then BetweenScans(p, t, lo, lo, hi, level)
      else Arrived(p, t, lo, lo, hi, level, at) && t.cols[at] == finalJ
    ensures finalJ != -1 ==> lo <= at < hi && forall k :: at < k < hi ==> y[cols[k]] >= 0
  {
    ghost var t := Labels(cols[..], d[..], pred[..], src);
    TodoNotEmpty(p, t, lo, u);
    hi := FindLeast(n, lo, d, cols);
    ReorderedTodo(p, t, cols[..], lo, hi);
    assert forall s :: 0 <= s < lo ==> cols[s] == cols[..lo][s] == t.cols[s];
    level := d[cols[lo]];
    finalJ, at := LastFree(lo, hi, cols, y);
  }

  method Reprice(n: nat, lo: nat, nReady: nat, d: array<real>, cols: array<int>, pred: array<int>, v: array<real>,
                 ghost p: Problem, ghost t: Labels, ghost level: real)
    requires p.Valid() && p.n == n && p.v == v[..] && d.Length == cols.Length == n && d != v
    requires t.Sized(n) && t.cols == cols[..] && t.d == d[..] && nReady <= lo < n && d[cols[lo]] == level
    modifies v
    ensures Repriced(n, t, p.v, v[..], nReady, level)
  {
    var mind := d[cols[lo]];
    for k := 0 to nReady
      invariant forall s :: 0 <= s < k ==> v[t.cols[s]] == p.v[t.cols[s]] + t.d[t.cols[s]] - mind
      invariant forall s :: k <= s < n ==> v[t.cols[s]] == p.v[t.cols[s]]
    {
      var j := cols[k];
      v[j] := v[j] + d[j] - mind;
    }
  }

  /** Cheapest augmenting path from a free row to a free column, after which the rows of all
      assigned columns and of all columns on the path are tight. */
  method FindPath(n: nat, cost: Matrix, startI: int, y: array<int>, v: array<real>, pred: array<int>, ghost x: seq<int>)
    returns (finalJ: int, ghost path: seq<int>)
    requires Square(cost, n) && y.Length == v.Length == pred.Length == n && y != pred
    requires Matched(n, x, y[..]) && Slack(cost, n, y[..], v[..]) && 0 <= startI < n && startI !in y[..]
    modifies v, pred
    ensures 0 <= finalJ < n && y[finalJ] < 0
    ensures Slack(cost, n, y[..], v[..])
    ensures AugmentingPath(cost, n, y[..], v[..], pred[..], startI, path) && path[0] == finalJ
    ensures Shortest(Problem(cost, n, y[..], old(v[..]), startI), path)
  {
    ghost var p := Problem(cost, n, y[..], v[..], startI);
    ghost var u := FreeColumn(n, x, y[..], startI);
    var cols := new int[n];
    var d := new real[n];
    ghost var src := seq(n, i => -1);
    InitLabels(n, cost, startI, d, cols, pred, v, p, src);
    var lo: nat, hi: nat, nReady: nat := 0, 0, 0;
    finalJ := -1;
    ghost var scanned: nat, at: nat, end: nat, level: real := 0, 0, 0, 0.0;
    ghost var t := Labels(cols[..], d[..], pred[..], src);
    while finalJ == -1
      invariant v[..] == p.v && t == Labels(cols[..], d[..], pred[..], src)
      invariant finalJ == -1 ==> lo == hi && Levelled(p, t, lo)
      invariant finalJ != -1 ==> nReady == lo && Arrived(p, t, nReady, scanned, end, level, at) && finalJ == t.cols[at]
      decreases finalJ == -1, n - lo
    {
      if lo == hi {
        nReady := lo;
        finalJ, hi, level, at := NextLevel(n, lo, d, cols, pred, y, p, src, u);
        scanned, end := lo, hi;
        t := Labels(cols[..], d[..], pred[..], src);
      }
      if finalJ == -1 {
        finalJ, lo, hi, src, scanned, at, end := ScanColumns(n, cost, lo, hi, d, cols, pred, y, v, p, src, level);
        t := Labels(cols[..], d[..], pred[..], src);
        if finalJ == -1 {
          ScannedLevel(p, t, nReady, lo, level);
        }
      }
    }
    Reprice(n, lo, nReady, d, cols, pred, v, p, t, level);
    RepricingKeepsSlack(p, t, nReady, scanned, end, level, at, v[..]);
    path := ArrivedPath(p, t, nReady, scanned, end, level, at, v[..]);
  }
}
