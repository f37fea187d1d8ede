/** The seek protocol shared by the streams of one file: requests are collected per stream, the first
    stream to seek positions the demuxer for all, backing off until every stream is satisfied. */
module StreamReader {
  import opened MediaTime

  /** Stands for an object whose get_seek_result is asked. */
  type Checker = nat

  datatype StreamInfo = StreamInfo(enabled: bool, seekTime: int, checkers: seq<Checker>, done: bool)

  const IDLE := StreamInfo(true, NOPTS, [], false)

  /** Where the demuxer lands and which checkers pass, for each attempt: `land(attempt, position)`,
      `passes(attempt, stream, checker)`. */
  datatype World = World(land: (nat, int) -> int, passes: (nat, nat, Checker) -> bool)

  // ---------------------------------------------------------------- requests

  function Requested(s: StreamInfo, time: int, checker: Checker): StreamInfo {
    if !s.enabled then s
    else
      s.(done := false,
         checkers := if checker in s.checkers then s.checkers else [checker] + s.checkers,
         seekTime := if s.seekTime > time || s.seekTime == NOPTS then time else s.seekTime)
  }

  datatype Request = Request(time: int, checker: Checker)

  lemma LastRequested(s: StreamInfo, rs: seq<Request>, r: Request)
    ensures AllRequested(s, rs + [r]) == Requested(AllRequested(s, rs), r.time, r.checker)
  {
    assert (rs + [r])[..|rs|] == rs;
  }

  function AllRequested(s: StreamInfo, rs: seq<Request>): StreamInfo {
    if rs == [] then s
    else
      var r := rs[|rs| - 1];
      Requested(AllRequested(s, rs[..|rs| - 1]), r.time, r.checker)
  }

  /** The place of the first request that names `c`. */
  ghost predicate FirstAsks(rs: seq<Request>, c: Checker, i: int) {
    0 <= i < |rs| && rs[i].checker == c && forall j :: 0 <= j < i ==> rs[j].checker != c
  }

  ghost predicate Asked(rs: seq<Request>, c: Checker) {
    exists i :: FirstAsks(rs, c, i)
  }

  /** Checkers are kept once each, the latest to be named first. */
  ghost predicate LatestFirst(rs: seq<Request>, checkers: seq<Checker>) {
    forall a, b, i, j :: 0 <= a < b < |checkers| && FirstAsks(rs, checkers[a], i) && FirstAsks(rs, checkers[b], j) ==>
      j < i
  }

  ghost predicate Collects(rs: seq<Request>, s: StreamInfo) {
    && s.enabled && !s.done
    && (rs == [] ==> s.seekTime == NOPTS)
    && (rs != [] ==> exists i :: 0 <= i < |rs| && rs[i].time == s.seekTime)
    && (forall i :: 0 <= i < |rs| ==> s.seekTime <= rs[i].time)
    && (forall i, j :: 0 <= i < j < |s.checkers| ==> s.checkers[i] != s.checkers[j])
    && (forall i :: 0 <= i < |rs| ==> rs[i].checker in s.checkers)
    && (forall k {:trigger Asked(rs, s.checkers[k])} :: 0 <= k < |s.checkers| ==> Asked(rs, s.checkers[k]))
    && LatestFirst(rs, s.checkers)
  }

  /** A stream's requests leave the least time asked for and every checker once, latest first. */
  lemma {:induction false} RequestsCollect(rs: seq<Request>)
    requires forall i :: 0 <= i < |rs| ==> rs[i].time > NOPTS
    ensures Collects(rs, AllRequested(IDLE, rs))
  {
    if rs != [] {
      var before, r := rs[..|rs| - 1], rs[|rs| - 1];
      RequestsCollect(before);
      RequestCollects(before, AllRequested(IDLE, before), r);
      assert before + [r] == rs;
    }
  }

  lemma FirstAsksOnce(rs: seq<Request>, r: Request, c: Checker, i: int, j: int)
    requires FirstAsks(rs, c, i) && FirstAsks(rs + [r], c, j)
    ensures i == j
  {
    assert (rs + [r])[i] == rs[i];
  }

  lemma StaysAsked(rs: seq<Request>, r: Request, c: Checker)
    requires Asked(rs, c)
    ensures Asked(rs + [r], c)
  {
    var i :| FirstAsks(rs, c, i);
    assert FirstAsks(rs + [r], c, i);
  }

  lemma RequestCollects(rs: seq<Request>, s: StreamInfo, r: Request)
    requires Collects(rs, s) && r.time > NOPTS
    requires forall i :: 0 <= i < |rs| ==> rs[i].time > NOPTS
    ensures Collects(rs + [r], Requested(s, r.time, r.checker))
  {
    var rs' := rs + [r];
    var s' := Requested(s, r.time, r.checker);
    assert rs'[|rs|] == r;
    if s'.seekTime == s.seekTime && rs != [] {
      var i :| 0 <= i < |rs| && rs[i].time == s.seekTime;
      assert rs'[i].time == s'.seekTime;
    }
    forall k | 0 <= k < |s'.checkers|
      ensures Asked(rs', s'.checkers[k])
    {
      if s'.checkers[k] in s.checkers {
        StaysAsked(rs, r, s'.checkers[k]);
      } else {
        assert FirstAsks(rs', r.checker, |rs|);
      }
    }
    RequestKeepsOrder(rs, s, r);
  }

  lemma RequestKeepsOrder(rs: seq<Request>, s: StreamInfo, r: Request)
    requires Collects(rs, s)
    ensures LatestFirst(rs + [r], Requested(s, r.time, r.checker).checkers)
  {
    var rs' := rs + [r];
    var cs := Requested(s, r.time, r.checker).checkers;
    var shift := |cs| - |s.checkers|;
    assert forall k :: shift <= k < |cs| ==> cs[k] == s.checkers[k - shift];
    forall a, b, i, j | 0 <= a < b < |cs| && FirstAsks(rs', cs[a], i) && FirstAsks(rs', cs[b], j)
      ensures j < i
    {
      assert Asked(rs, s.checkers[b - shift]);
      var j' :| FirstAsks(rs, s.checkers[b - shift], j');
      FirstAsksOnce(rs, r, cs[b], j', j);
      if a >= shift {
        assert Asked(rs, s.checkers[a - shift]);
        var i' :| FirstAsks(rs, s.checkers[a - shift], i');
        FirstAsksOnce(rs, r, cs[a], i', i);
      } else {
        assert forall k :: 0 <= k < |rs| ==> rs'[k] == rs[k] && rs[k].checker in s.checkers;
        assert i == |rs|;
      }
    }
  }

  // ---------------------------------------------------------------- one attempt

  /** All checkers of stream `i` pass in this attempt. */
  ghost predicate StreamPasses(w: World, attempt: nat, infos: seq<StreamInfo>, i: nat)
    requires i < |infos|
  {
    forall k :: 0 <= k < |infos[i].checkers| ==> w.passes(attempt, i, infos[i].checkers[k])
  }

  ghost predicate AllPass(w: World, attempt: nat, infos: seq<StreamInfo>) {
    forall i :: 0 <= i < |infos| ==> StreamPasses(w, attempt, infos, i)
  }

  /** Asks a stream's checkers in order; away from position 0 the first failure ends the asking. */
  method GetSeekResult(w: World, attempt: nat, infos: seq<StreamInfo>, i: nat, pos: int)
    returns (info: StreamInfo, ok: bool, asked: nat)
    requires i < |infos|
    ensures info == infos[i].(done := true)
    ensures ok <==> StreamPasses(w, attempt, infos, i)
    ensures asked <= |infos[i].checkers| && (ok || pos <= 0 ==> asked == |infos[i].checkers|)
    ensures !ok && pos > 0 ==> asked > 0 && !w.passes(attempt, i, infos[i].checkers[asked - 1])
                               && forall k :: 0 <= k < asked - 1 ==> w.passes(attempt, i, infos[i].checkers[k])
  {
    info := infos[i].(done := true);
    ok := true;
    asked := 0;
    while asked < |info.checkers|
      invariant asked <= |info.checkers|
      invariant ok <==> forall k :: 0 <= k < asked ==> w.passes(attempt, i, info.checkers[k])
      invariant pos > 0 ==> ok
    {
      var passed := w.passes(attempt, i, info.checkers[asked]);
      asked := asked + 1;
      if !passed {
        ok := false;
        if pos > 0 {
          break;
        }
      }
    }
  }

  /** How many of each stream's checkers were asked, up to the stream at which the asking ended. */
  ghost predicate AskedAll(infos: seq<StreamInfo>, asked: seq<nat>) {
    |asked| == |infos| && forall i :: 0 <= i < |infos| ==> asked[i] == |infos[i].checkers|
  }

  /** The streams asked are marked; away from 0 the first stream that fails ends the asking. */
  method CheckStreams(w: World, attempt: nat, infos: seq<StreamInfo>, pos: int)
    returns (infos': seq<StreamInfo>, ok: bool, asked: seq<nat>)
    ensures ok <==> AllPass(w, attempt, infos)
    ensures |infos'| == |infos| && |asked| <= |infos|
    ensures forall i :: 0 <= i < |infos| ==> infos'[i] == if i < |asked| then infos[i].(done := true) else infos[i]
    ensures ok || pos <= 0 ==> AskedAll(infos, asked)
  {
    infos', ok, asked := infos, true, [];
    while |asked| < |infos|
      invariant |asked| <= |infos| && |infos'| == |infos|
      invariant forall i :: 0 <= i < |infos| ==> infos'[i] == if i < |asked| then infos[i].(done := true) else infos[i]
      invariant ok <==> forall i :: 0 <= i < |asked| ==> StreamPasses(w, attempt, infos, i)
      invariant ok || pos <= 0 ==> forall i :: 0 <= i < |asked| ==> asked[i] == |infos[i].checkers|
      invariant pos > 0 ==> ok
      decreases |infos| - |asked|
    {
      var i := |asked|;
      var info, passed, count := GetSeekResult(w, attempt, infos, i, pos);
      infos' := infos'[i := info];
      asked := asked + [count];
      if !passed {
        ok := false;
        if pos > 0 {
          break;
        }
      }
    }
  }

  // ---------------------------------------------------------------- backing off

  const MAX_STEP := 16 * SECOND
  const MAX_TIME_SHIFT := 60 * SECOND

  /** The step back before attempt `k`: 0, 1, 2, 4, 8, 16, 16, ... seconds. */
  function Step(k: nat): int {
    if k == 0 then 0 else if k == 1 then SECOND else if Step(k - 1) < MAX_STEP then Step(k - 1) * 2 else Step(k - 1)
  }

  /** The total of the steps up to attempt `k`. */
  function Retreat(k: nat): int {
    if k == 0 then 0 else Retreat(k - 1) + Step(k)
  }

  lemma Retreats()
    ensures Step(0) == 0 && Step(1) == SECOND && Step(2) == 2 * SECOND && Step(3) == 4 * SECOND && Step(4) == 8 * SECOND
    ensures Step(5) == 16 * SECOND && Step(6) == 16 * SECOND && Step(7) == 16 * SECOND
    ensures Retreat(0) == 0 && Retreat(1) == SECOND && Retreat(2) == 3 * SECOND && Retreat(3) == 7 * SECOND
    ensures Retreat(4) == 15 * SECOND && Retreat(5) == 31 * SECOND && Retreat(6) == 47 * SECOND
            && Retreat(7) == 63 * SECOND
  {
    assert Step(2) == 2 * SECOND;
    assert Step(3) == 4 * SECOND;
    assert Step(4) == 8 * SECOND;
    assert Step(5) == 16 * SECOND;
    assert Step(6) == 16 * SECOND;
    assert Retreat(2) == 3 * SECOND;
    assert Retreat(4) == 15 * SECOND;
    assert Retreat(6) == 47 * SECOND;
  }

  /** The position asked for in attempt `k`, after the one before it landed at `pos`. */
  function Target(start: int, pos: int, k: nat): int {
    if pos >= Step(k) && start - pos < MAX_TIME_SHIFT then pos - Step(k) else 0
  }

  /** Attempt `k` asks for the target and lands there or before. */
  ghost predicate AttemptAt(w: World, start: int, targets: seq<int>, landed: seq<int>, k: int)
    requires |targets| == |landed| && 0 <= k < |targets|
  {
    && targets[k] == Target(start, if k == 0 then start else landed[k - 1], k)
    && landed[k] == if w.land(k, targets[k]) < targets[k] then w.land(k, targets[k]) else targets[k]
  }

  /** Positions asked for and landed at. */
  ghost predicate Attempts(w: World, start: int, targets: seq<int>, landed: seq<int>) {
    && |targets| == |landed|
    && (forall k {:trigger AttemptAt(w, start, targets, landed, k)} :: 0 <= k < |targets| ==>
          AttemptAt(w, start, targets, landed, k))
  }

  /** As long as no attempt lands at 0, attempt `k` is at least `Retreat(k)` back. */
  lemma {:induction false} RetreatsAtLeast(w: World, start: int, targets: seq<int>, landed: seq<int>, k: int)
    requires Attempts(w, start, targets, landed) && 0 <= k < |landed|
    requires forall j :: 0 <= j <= k ==> landed[j] > 0
    ensures start - landed[k] >= Retreat(k)
    ensures k > 0 ==> start - landed[k - 1] < MAX_TIME_SHIFT
    decreases k
  {
    assert AttemptAt(w, start, targets, landed, k);
    if k > 0 {
      RetreatsAtLeast(w, start, targets, landed, k - 1);
    }
  }

  /** At most eight attempts land away from 0. */
  lemma EightAttempts(w: World, start: int, targets: seq<int>, landed: seq<int>)
    requires Attempts(w, start, targets, landed)
    requires forall j :: 0 <= j < |landed| ==> landed[j] > 0
    ensures |landed| <= 8
  {
    Retreats();
    if |landed| > 8 {
      RetreatsAtLeast(w, start, targets, landed, 8);
      RetreatsAtLeast(w, start, targets, landed, 7);
    }
  }

  lemma AttemptsPrefix(w: World, start: int, targets: seq<int>, landed: seq<int>, n: int)
    requires Attempts(w, start, targets, landed) && 0 <= n <= |targets|
    ensures Attempts(w, start, targets[..n], landed[..n])
  {
    forall k | 0 <= k < n
      ensures AttemptAt(w, start, targets[..n], landed[..n], k)
    {
      assert AttemptAt(w, start, targets, landed, k);
    }
  }

  /** A demuxer that lands where it is asked is sent 0, 1, 3, 7, 15, 31, 47 and 63 seconds back, then to 0. */
  lemma {:induction false} ExactRetreat(w: World, start: int, targets: seq<int>, landed: seq<int>, k: int)
    requires Attempts(w, start, targets, landed) && start >= 0 && 0 <= k < |targets| && landed == targets
    requires forall j :: 0 <= j < k ==> landed[j] > 0
    ensures targets[k] == if k <= 7 && start >= Retreat(k) then start - Retreat(k) else 0
    decreases k
  {
    Retreats();
    AttemptsPrefix(w, start, targets, landed, k);
    EightAttempts(w, start, targets[..k], landed[..k]);
    assert AttemptAt(w, start, targets, landed, k);
    if k > 0 {
      ExactRetreat(w, start, targets, landed, k - 1);
    }
  }

  /** Seconds from a landing back to the next position sought. */
  const BACK_OFF: seq<int> := [1, 2, 4, 8, 16, 16, 16]

  /** The first position sought is `start`. Every other is that many seconds before the landing that failed, or 0 if
      this would be before the start of the file, the landing was a minute back already or the list is used up. */
  ghost predicate SoughtAt(start: int, targets: seq<int>, landed: seq<int>, k: int)
    requires 0 <= k < |targets| && k <= |landed|
  {
    if k == 0 then targets[0] == start
    else if k <= |BACK_OFF| && landed[k - 1] >= BACK_OFF[k - 1] * SECOND && start - landed[k - 1] < 60 * SECOND then
      targets[k] == landed[k - 1] - BACK_OFF[k - 1] * SECOND
    else targets[k] == 0
  }

  /** Wherever the demuxer lands, and every position sought is below all those before. */
  lemma BackOffFromLanding(w: World, start: int, targets: seq<int>, landed: seq<int>, k: int)
    requires Attempts(w, start, targets, landed) && start >= 0 && 0 <= k < |targets|
    requires forall j :: 0 <= j < k ==> landed[j] > 0
    ensures SoughtAt(start, targets, landed, k)
    ensures forall j :: 0 <= j < k ==> targets[k] < targets[j]
  {
    Retreats();
    assert AttemptAt(w, start, targets, landed, k);
    if k > |BACK_OFF| {
      RetreatsAtLeast(w, start, targets, landed, k - 1);
      RetreatsGrow(7, k - 1);
    }
    forall j | 0 <= j < k
      ensures targets[k] < targets[j]
    {
      FallsBelow(w, start, targets, landed, j, k);
    }
  }

  /** Every position was sought for its reason, and none twice. */
  ghost predicate AllSought(start: int, targets: seq<int>, landed: seq<int>)
    requires |targets| == |landed|
  {
    && (forall k :: 0 <= k < |targets| ==> SoughtAt(start, targets, landed, k))
    && (forall j, k :: 0 <= j < k < |targets| ==> targets[k] < targets[j])
  }

  lemma SoughtByLandings(w: World, start: int, targets: seq<int>, landed: seq<int>)
    requires Attempts(w, start, targets, landed) && start >= 0
    requires forall j :: 0 <= j < |landed| - 1 ==> landed[j] > 0
    ensures AllSought(start, targets, landed)
  {
    forall k | 0 <= k < |targets|
      ensures SoughtAt(start, targets, landed, k)
      ensures forall j :: 0 <= j < k ==> targets[k] < targets[j]
    {
      BackOffFromLanding(w, start, targets, landed, k);
    }
  }

  lemma {:induction false} RetreatsGrow(a: nat, b: nat)
    requires a <= b
    ensures Retreat(a) <= Retreat(b)
  {
    if a < b {
      StepsAreNatural(b);
      RetreatsGrow(a, b - 1);
    }
  }

  lemma {:induction false} FallsBelow(w: World, start: int, targets: seq<int>, landed: seq<int>, j: int, k: int)
    requires Attempts(w, start, targets, landed) && 0 <= j < k < |targets|
    requires forall i :: 0 <= i < k ==> landed[i] > 0
    ensures targets[k] < landed[k - 1] <= targets[k - 1] && targets[k] < targets[j]
    decreases k
  {
    assert AttemptAt(w, start, targets, landed, k) && AttemptAt(w, start, targets, landed, k - 1);
    StepsAreNatural(k);
    if j < k - 1 {
      FallsBelow(w, start, targets, landed, j, k - 1);
    }
  }

  /** The demuxer never lands before the start of the file. */
  ghost predicate LandsInFile(w: World) {
    forall k, p :: p >= 0 ==> w.land(k, p) >= 0
  }

  function Marked(infos: seq<StreamInfo>): (r: seq<StreamInfo>)
    ensures |r| == |infos| && forall i :: 0 <= i < |infos| ==> r[i] == infos[i].(done := true)
  {
    seq(|infos|, i requires 0 <= i < |infos| => infos[i].(done := true))
  }

  lemma SameCheckers(w: World, attempt: nat, a: seq<StreamInfo>, b: seq<StreamInfo>)
    requires |a| == |b| && forall i :: 0 <= i < |a| ==> a[i].(done := true) == b[i].(done := true)
    ensures AllPass(w, attempt, a) <==> AllPass(w, attempt, b)
    ensures forall i :: 0 <= i < |a| ==> a[i].checkers == b[i].checkers
  {
    forall i | 0 <= i < |a|
      ensures a[i].checkers == b[i].checkers
      ensures StreamPasses(w, attempt, a, i) <==> StreamPasses(w, attempt, b, i)
    {
      assert a[i].(done := true).checkers == b[i].(done := true).checkers;
    }
  }

  /** The position to ask for next, and the step after it. */
  method StepBack(n: nat, start: int, pos: int, step: int) returns (target: int, step': int)
    requires pos >= 0 && step == Step(n)
    ensures target == Target(start, pos, n) && 0 <= target <= pos
    ensures target > 0 ==> step' == Step(n + 1)
  {
    target, step' := pos, step;
    StepsAreNatural(n);
    if target >= step && start - target < MAX_TIME_SHIFT {
      target := target - step;
      if step < MAX_STEP {
        step' := if step != 0 then step * 2 else SECOND;
      }
    } else {
      target := 0;
    }
  }

  /** Steps back, sends the demuxer there and notes where it landed. */
  method Probe(w: World, n: nat, start: int, pos: int, step: int) returns (target: int, reached: int, step': int)
    requires LandsInFile(w) && pos >= 0 && step == Step(n)
    ensures target == Target(start, pos, n) && 0 <= reached <= target <= pos
    ensures reached == if w.land(n, target) < target then w.land(n, target) else target
    ensures target > 0 ==> step' == Step(n + 1)
  {
    target, step' := StepBack(n, start, pos, step);
    reached := w.land(n, target);
    if reached >= target {
      reached := target;
    }
  }

  lemma {:induction false} StepsAreNatural(n: nat)
    ensures if n == 0 then Step(n) == 0 else Step(n) >= SECOND
  {
    if n > 1 {
      StepsAreNatural(n - 1);
    }
  }

  /** Attempts so far: none satisfied all streams and none landed at 0. */
  ghost predicate Searching(w: World, infos: seq<StreamInfo>, infos': seq<StreamInfo>, start: int, targets: seq<int>,
                            landed: seq<int>) {
    && Attempts(w, start, targets, landed)
    && (forall k :: 0 <= k < |landed| ==> 0 < landed[k] <= targets[k] <= start && !AllPass(w, k, infos))
    && |infos'| == |infos| && (forall i :: 0 <= i < |infos| ==> infos'[i].(done := true) == infos[i].(done := true))
    && (targets == [] ==> infos' == infos)
  }

  /** What a search comes to. */
  ghost predicate Searched(w: World, infos: seq<StreamInfo>, infos': seq<StreamInfo>, start: int, targets: seq<int>,
                           landed: seq<int>, asked: seq<nat>) {
    && Attempts(w, start, targets, landed) && 1 <= |targets| <= 9
    && infos' == Marked(infos) && AskedAll(infos, asked)
    && (forall k :: 0 <= k < |landed| ==> 0 <= landed[k] <= targets[k] <= start)
    && AllSought(start, targets, landed)
    && (forall k :: 0 <= k < |landed| - 1 ==> landed[k] > 0 && !AllPass(w, k, infos))
    && (landed[|landed| - 1] == 0 || AllPass(w, |landed| - 1, infos))
  }

  lemma AttemptsGrow(w: World, start: int, targets: seq<int>, landed: seq<int>, t: int, l: int)
    requires Attempts(w, start, targets, landed)
    requires t == Target(start, if landed == [] then start else landed[|landed| - 1], |targets|)
    requires l == if w.land(|targets|, t) < t then w.land(|targets|, t) else t
    ensures Attempts(w, start, targets + [t], landed + [l])
  {
    forall k | 0 <= k <= |targets|
      ensures AttemptAt(w, start, targets + [t], landed + [l], k)
    {
      if k < |targets| {
        assert AttemptAt(w, start, targets, landed, k);
      }
    }
  }

  /** An attempt that satisfies all or lands at 0 ends the search; any other prolongs it. */
  lemma SearchStep(w: World, infos: seq<StreamInfo>, was: seq<StreamInfo>, infos': seq<StreamInfo>, start: int,
                   targets: seq<int>, landed: seq<int>, t: int, l: int, ok: bool, asked: seq<nat>)
    requires Searching(w, infos, was, start, targets, landed) && |targets| <= 8 && start >= 0
    requires var pos := if landed == [] then start else landed[|landed| - 1];
             t == Target(start, pos, |targets|) && t <= pos
    requires l == (if w.land(|targets|, t) < t then w.land(|targets|, t) else t) && 0 <= l <= t
    requires ok <==> AllPass(w, |targets|, infos)
    requires |infos'| == |was| && |asked| <= |was|
    requires forall i :: 0 <= i < |was| ==> infos'[i] == if i < |asked| then was[i].(done := true) else was[i]
    requires ok || l <= 0 ==> AskedAll(infos, asked)
    ensures ok || l == 0 ==> Searched(w, infos, infos', start, targets + [t], landed + [l], asked)
    ensures !ok && l > 0 ==> Searching(w, infos, infos', start, targets + [t], landed + [l])
  {
    AttemptsGrow(w, start, targets, landed, t, l);
    var ts, ls := targets + [t], landed + [l];
    assert forall k :: 0 <= k < |landed| ==> ts[k] == targets[k] && ls[k] == landed[k];
    assert forall i :: 0 <= i < |infos| ==> infos'[i].(done := true) == infos[i].(done := true);
    if ok || l == 0 {
      assert infos' == Marked(infos);
      SoughtByLandings(w, start, ts, ls);
    }
  }

  /** Attempts until all streams pass or position 0 is reached; the last attempt asks every checker. */
  method Search(w: World, infos: seq<StreamInfo>, start: int)
    returns (infos': seq<StreamInfo>, targets: seq<int>, landed: seq<int>, asked: seq<nat>)
    requires LandsInFile(w)
    ensures if start < 0 then targets == [] && infos' == infos
            else Searched(w, infos, infos', start, targets, landed, asked)
  {
    infos', targets, landed, asked := infos, [], [], [];
    var pos, step := start, 0;
    while pos >= 0
      invariant Searching(w, infos, infos', start, targets, landed) && step == Step(|targets|)
      invariant pos == if targets == [] then start else landed[|landed| - 1]
      decreases 9 - |targets|
    {
      var n := |targets|;
      EightAttempts(w, start, targets, landed);
      var target, reached, next := Probe(w, n, start, pos, step);
      SameCheckers(w, n, infos, infos');
      ghost var was := infos';
      var ok: bool;
      infos', ok, asked := CheckStreams(w, n, infos', reached);
      SearchStep(w, infos, was, infos', start, targets, landed, target, reached, ok, asked);
      targets, landed, pos, step := targets + [target], landed + [reached], reached, next;
      if ok || pos == 0 {
        return;
      }
    }
  }

  // ---------------------------------------------------------------- the reader

  ghost predicate Enabled(s: seq<StreamInfo>, i: int) {
    0 <= i < |s| && s[i].enabled
  }

  /** The call finds its stream enabled, not positioned yet, and every enabled stream requested. */
  ghost predicate Drives(s: seq<StreamInfo>, id: int) {
    Enabled(s, id) && !s[id].done && forall i {:trigger s[i]} :: Enabled(s, i) ==> s[i].seekTime != NOPTS
  }

  ghost predicate Rejected(s: seq<StreamInfo>, id: int) {
    !Enabled(s, id) || (!s[id].done && !Drives(s, id))
  }

  ghost predicate IsLeast(s: seq<StreamInfo>, start: int) {
    && (exists i :: Enabled(s, i) && s[i].seekTime == start)
    && (forall i {:trigger s[i]} :: Enabled(s, i) ==> start <= s[i].seekTime)
  }

  ghost predicate NoneBelowZero(s: seq<StreamInfo>) {
    forall i {:trigger s[i]} :: Enabled(s, i) ==> s[i].seekTime >= 0
  }

  /** Stream `i` after a call for stream `id`. */
  ghost function AfterSeek(s: seq<StreamInfo>, id: int, i: int): StreamInfo
    requires 0 <= i < |s|
  {
    if Rejected(s, id) then s[i]
    else if Drives(s, id) then StreamInfo(s[i].enabled, NOPTS, [], i != id && (s[i].done || NoneBelowZero(s)))
    else if i == id then StreamInfo(s[i].enabled, NOPTS, [], false)
    else s[i]
  }

  class Reader {
    var streams: seq<StreamInfo>

    method RequestSeek(id: nat, time: int, checker: Checker)
      requires id < |streams|
      modifies this
      ensures streams == old(streams)[id := Requested(old(streams)[id], time, checker)]
    {
      var s := streams[id];
      if !s.enabled {
        return;
      }
      s := s.(done := false);
      if checker !in s.checkers {
        s := s.(checkers := [checker] + s.checkers);
      }
      if s.seekTime > time || s.seekTime == NOPTS {
        s := s.(seekTime := time);
      }
      streams := streams[id := s];
    }

    /** False where the program throws. `targets` are the positions the demuxer is sent to. */
    method Seek(w: World, id: int) returns (ok: bool, start: int, targets: seq<int>, landed: seq<int>, asked: seq<nat>)
      requires LandsInFile(w)
      modifies this
      ensures ok <==> !Rejected(old(streams), id)
      ensures |streams| == |old(streams)| && forall i :: 0 <= i < |streams| ==>
                streams[i] == AfterSeek(old(streams), id, i)
      ensures !Drives(old(streams), id) || start < 0 ==> targets == []
      ensures Drives(old(streams), id) ==> IsLeast(old(streams), start)
      ensures Drives(old(streams), id) && start >= 0 ==>
                Searched(w, old(streams), Marked(old(streams)), start, targets, landed, asked)
    {
      ok, start, targets, landed, asked := false, NOPTS, [], [], [];
      if id < 0 || id >= |streams| || !streams[id].enabled {
        return;
      }
      if streams[id].done {
        streams := streams[id := StreamInfo(streams[id].enabled, NOPTS, [], false)];
        ok := true;
        return;
      }
      ok, start := LeastRequest(streams, id);
      if !ok {
        return;
      }
      var infos: seq<StreamInfo>;
      infos, targets, landed, asked := Search(w, streams, start);
      infos := ResetAll(infos);
      streams := infos[id := infos[id].(done := false)];
    }
  }

  /** The least time requested; fails if an enabled stream has none. */
  method LeastRequest(s: seq<StreamInfo>, ghost id: int) returns (ok: bool, start: int)
    requires Enabled(s, id)
    ensures ok <==> forall i {:trigger s[i]} :: Enabled(s, i) ==> s[i].seekTime != NOPTS
    ensures ok ==> IsLeast(s, start)
  {
    start := NOPTS;
    for i := 0 to |s|
      invariant forall k {:trigger s[k]} :: 0 <= k < i && s[k].enabled ==> s[k].seekTime != NOPTS
      invariant if start == NOPTS then forall k :: 0 <= k < i ==> !s[k].enabled
                else exists k :: 0 <= k < i && s[k].enabled && s[k].seekTime == start
      invariant forall k {:trigger s[k]} :: 0 <= k < i && s[k].enabled ==> start <= s[k].seekTime
    {
      if s[i].enabled {
        if s[i].seekTime == NOPTS {
          return false, start;
        }
        if start == NOPTS || start > s[i].seekTime {
          start := s[i].seekTime;
        }
      }
    }
    return true, start;
  }

  method ResetAll(infos: seq<StreamInfo>) returns (r: seq<StreamInfo>)
    ensures |r| == |infos|
    ensures forall i :: 0 <= i < |infos| ==> r[i] == StreamInfo(infos[i].enabled, NOPTS, [], infos[i].done)
  {
    r := [];
    while |r| < |infos|
      invariant |r| <= |infos|
      invariant forall i :: 0 <= i < |r| ==> r[i] == StreamInfo(infos[i].enabled, NOPTS, [], infos[i].done)
      decreases |infos| - |r|
    {
      r := r + [infos[|r|].(seekTime := NOPTS, checkers := [])];
    }
  }

  // ---------------------------------------------------------------- one call for each stream

  /** The reader's streams after a call for each stream of `order`, in turn. */
  ghost function AfterCalls(s: seq<StreamInfo>, order: seq<int>): (r: seq<StreamInfo>)
    ensures |r| == |s|
  {
    if order == [] then s
    else
      var t := AfterCalls(s, order[..|order| - 1]);
      seq(|s|, i requires 0 <= i < |s| => AfterSeek(t, order[|order| - 1], i))
  }

  /** Every enabled stream asked for a position in the file. */
  ghost predicate AllRequestedInFile(s: seq<StreamInfo>) {
    forall i {:trigger s[i]} :: Enabled(s, i) ==> !s[i].done && s[i].seekTime >= 0
  }

  ghost predicate OncePerStream(s: seq<StreamInfo>, order: seq<int>) {
    && (forall j, k :: 0 <= j < k < |order| ==> order[j] != order[k])
    && (forall k :: 0 <= k < |order| ==> Enabled(s, order[k]))
  }

  /** Between the calls: streams that called are idle, the others wait to be told that all is done. */
  lemma {:induction false} BetweenCalls(s: seq<StreamInfo>, order: seq<int>)
    requires AllRequestedInFile(s) && OncePerStream(s, order) && order != []
    ensures var r := AfterCalls(s, order);
      forall i :: 0 <= i < |r| ==>
        r[i] == StreamInfo(s[i].enabled, NOPTS, [], !(i in order))
    decreases |order|
  {
    var n := |order| - 1;
    var t := AfterCalls(s, order[..n]);
    assert order == order[..n] + [order[n]];
    if n > 0 {
      BetweenCalls(s, order[..n]);
      assert order[n] !in order[..n];
      assert t[order[n]].done;
    } else {
      assert Drives(s, order[0]);
    }
  }

  /** In any order: only the first call drives the demuxer, none fails, and at the end every enabled
      stream is as it was before any request. */
  lemma OneSeekForAll(s: seq<StreamInfo>, order: seq<int>, k: int)
    requires AllRequestedInFile(s) && OncePerStream(s, order) && 0 <= k < |order|
    requires forall i :: Enabled(s, i) ==> i in order
    ensures Drives(AfterCalls(s, order[..k]), order[k]) <==> k == 0
    ensures !Rejected(AfterCalls(s, order[..k]), order[k])
    ensures forall i :: Enabled(s, i) ==> AfterCalls(s, order)[i] == IDLE
  {
    BetweenCalls(s, order);
    if k > 0 {
      BetweenCalls(s, order[..k]);
      assert order[k] !in order[..k];
    }
  }
}
