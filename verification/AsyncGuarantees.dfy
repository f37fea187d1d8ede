/** What the invariant of the asynchronous pipeline means for frames and branches. */
module AsyncGuarantees {
  import opened AsyncProtocol
  import opened Graph
  import opened Options

  /** Ready means data is held, unless the root was given a null frame; running means one item is owed. */
  lemma StatusMeansOwed(t: Tree, policy: Policy, run: seq<Step>, b: Id)
    requires IsTree(t) && b in t.kids && After(t, policy, run).Some?
    ensures var s := After(t, policy, run).value;
      && (s.slots[b].data.Some? ==> s.slots[b].status == Ready)
      && (s.slots[b].status == Ready ==> s.slots[b].data.Some? || (b == t.root && Jammed(t, s)))
      && (s.slots[b].status == Running <==>
            |s.workers[b].queue| + |Optional(s.workers[b].busy)| + s.workers[b].exceptions == 1)
      && |s.workers[b].queue| <= 1
  {
    EveryRunOk(t, policy, run);
    assert BranchOk(t, policy, After(t, policy, run).value, b);
  }

  // ---------------------------------------------------------------- a null frame

  ghost predicate Jammed(t: Tree, s: State)
    requires t.root in s.slots
  {
    s.slots[t.root] == Slot(None, Ready)
  }

  /** Step `i` of the run handed a null frame to an idle root. */
  ghost predicate NullAccepted(t: Tree, policy: Policy, run: seq<Step>, i: int)
    requires IsTree(t)
  {
    && 0 <= i < |run| && run[i] == Submit(false)
    && After(t, policy, run[..i]).Some? && After(t, policy, run[..i]).value.slots[t.root].status == Finished
  }

  ghost predicate NullEver(t: Tree, policy: Policy, run: seq<Step>)
    requires IsTree(t)
  {
    exists i :: NullAccepted(t, policy, run, i)
  }

  lemma JamStep(t: Tree, policy: Policy, s: State, a: Step)
    requires Ok(t, policy, s) && Enabled(t, s, a)
    ensures Jammed(t, Next(t, policy, s, a)) <==>
            Jammed(t, s) || (a == Submit(false) && s.slots[t.root].status == Finished)
  {
    assert BranchOk(t, policy, s, t.root);
    match a
    case Finish(id) =>
      BusyLine(t, policy, s, id);
      assert !IsKid(t, id, t.root);
    case _ =>
  }

  lemma NullBeforeOrLast(t: Tree, policy: Policy, run: seq<Step>)
    requires IsTree(t) && run != []
    ensures NullEver(t, policy, run) <==>
            NullEver(t, policy, run[..|run| - 1]) || NullAccepted(t, policy, run, |run| - 1)
  {
    var before := run[..|run| - 1];
    forall i
      ensures NullAccepted(t, policy, run, i) <==>
              NullAccepted(t, policy, before, i) || (i == |run| - 1 && NullAccepted(t, policy, run, i))
    {
      assert 0 <= i < |run| - 1 ==> before[..i] == run[..i];
    }
  }

  /** The root is stuck with no data, for good, exactly when it was once handed a null frame. */
  lemma {:induction false} JammedIffNullAccepted(t: Tree, policy: Policy, run: seq<Step>)
    requires IsTree(t) && After(t, policy, run).Some?
    ensures Jammed(t, After(t, policy, run).value) <==> NullEver(t, policy, run)
  {
    if run != [] {
      var n := |run| - 1;
      var before := run[..n];
      JammedIffNullAccepted(t, policy, before);
      EveryRunOk(t, policy, before);
      JamStep(t, policy, After(t, policy, before).value, run[n]);
      NullBeforeOrLast(t, policy, run);
    }
  }

  // ---------------------------------------------------------------- waiting: one frame at a time

  /** `b` is at work on `f`, or about to be and below the root. */
  ghost predicate Carries(t: Tree, s: State, b: Id, f: Frame)
    requires Shape(t, s)
  {
    b in t.kids && f in Pending(s, b) && (s.slots[b].status == Running || (s.slots[b].status == Ready && b != t.root))
  }

  lemma CarriesCurrent(t: Tree, s: State, b: Id, f: Frame)
    requires Ok(t, ParallelWait, s) && Carries(t, s, b, f)
    ensures f + 1 == Current(t, s)
  {
    assert BranchOk(t, ParallelWait, s, b);
    assert Pending(s, b) == [f];
    assert Line(s, b)[|Line(s, b)| - 1] == f;
  }

  /** All running branches and all ready ones below the root have the same frame. */
  lemma OneFrameAtATime(t: Tree, run: seq<Step>, b: Id, f: Frame, c: Id, g: Frame)
    requires IsTree(t) && After(t, ParallelWait, run).Some?
    requires var s := After(t, ParallelWait, run).value; Carries(t, s, b, f) && Carries(t, s, c, g)
    ensures f == g
  {
    EveryRunOk(t, ParallelWait, run);
    CarriesCurrent(t, After(t, ParallelWait, run).value, b, f);
    CarriesCurrent(t, After(t, ParallelWait, run).value, c, g);
  }

  // ---------------------------------------------------------------- waiting: the root moves on

  lemma {:induction false} FrameAt(h: seq<Outcome>, i: int)
    requires 0 <= i < |h|
    ensures Frames(h)[i] == h[i].frame
  {
    if i < |h| - 1 {
      FrameAt(h[..|h| - 1], i);
    }
  }

  lemma {:induction false} PassedMeansDone(h: seq<Outcome>, f: Frame)
    ensures f in Passed(h) <==> Done(f) in h
  {
    if h != [] {
      var n := |h| - 1;
      PassedMeansDone(h[..n], f);
      assert h == h[..n] + [h[n]];
      assert Passed(h) == Passed(h[..n]) + if h[n].Done? then [h[n].frame] else [];
    }
  }

  lemma EndedOnce(h: seq<Outcome>, f: Frame)
    requires Increasing(Frames(h))
    ensures f in Frames(h) <==> Done(f) in h || Threw(f) in h
    ensures !(Done(f) in h && Threw(f) in h)
  {
    forall i | 0 <= i < |h|
      ensures Frames(h)[i] == h[i].frame
    {
      FrameAt(h, i);
    }
    if f in Frames(h) {
      var i :| 0 <= i < |h| && Frames(h)[i] == f;
      assert h[i] == Done(f) || h[i] == Threw(f);
    }
    forall i, j | 0 <= i < |h| && 0 <= j < |h|
      ensures !(h[i] == Done(f) && h[j] == Threw(f))
    {
      assert Frames(h)[i] == h[i].frame && Frames(h)[j] == h[j].frame;
    }
  }

  ghost predicate IsDescent(t: Tree, path: seq<Id>) {
    && |path| >= 1 && path[0] == t.root
    && forall i, j :: 0 <= i < j < |path| && j == i + 1 ==> IsKid(t, path[i], path[j])
  }

  lemma {:induction false} EndedAlong(t: Tree, s: State, path: seq<Id>, k: int, n: Frame, f: Frame)
    requires Ok(t, ParallelWait, s) && IsDescent(t, path) && 0 <= k < |path|
    requires forall b :: b in t.kids && b != t.root ==> s.slots[b].status == Finished
    requires f < n && Upto(Frames(s.log[t.root]), n)
    ensures path[k] in t.kids && Increasing(Frames(s.log[path[k]]))
    ensures f in Frames(s.log[path[k]]) <==>
            forall i :: 0 <= i < k ==> path[i] in s.log && Threw(f) !in s.log[path[i]]
    decreases k
  {
    if k == 0 {
      assert Frames(s.log[t.root])[f] == f;
    } else {
      EndedAlong(t, s, path, k - 1, n, f);
      assert IsKid(t, path[k - 1], path[k]);
      assert BranchOk(t, ParallelWait, s, path[k]);
      IdleLine(t, ParallelWait, s, path[k]);
      assert Fed(ParallelWait, s.log[path[k - 1]], Line(s, path[k]));
      EndedOnce(s.log[path[k - 1]], f);
      PassedMeansDone(s.log[path[k - 1]], f);
    }
  }

  /** When the root is started on a frame, every branch of the tree has ended each earlier frame
      exactly once, unless a branch above it threw on that frame; then not at all. */
  lemma RootStartsAfterAll(t: Tree, run: seq<Step>, u: State, path: seq<Id>, f: Frame)
    requires IsTree(t) && After(t, ParallelWait, run) == Some(u) && IsDescent(t, path)
    requires StartsRoot(t, AfterHandling(u)) && f < AfterHandling(u).slots[t.root].data.value
    ensures EndedUnlessThrown(u.log, path, f) && u.slots[t.root].data == Some(u.accepted - 1)
  {
    EveryRunOk(t, ParallelWait, run);
    StartsAfterHandling(t, u, path, f);
  }

  lemma StartsAfterHandling(t: Tree, u: State, path: seq<Id>, f: Frame)
    requires Ok(t, ParallelWait, u) && IsDescent(t, path)
    requires StartsRoot(t, AfterHandling(u)) && f < AfterHandling(u).slots[t.root].data.value
    ensures EndedUnlessThrown(u.log, path, f) && u.slots[t.root].data == Some(u.accepted - 1)
  {
    HandlingOk(t, ParallelWait, u);
    HandlingKeepsData(t, u);
    RootStarts(t, AfterHandling(u), path, f);
  }

  lemma HandlingKeepsData(t: Tree, u: State)
    requires Shape(t, u)
    ensures AfterHandling(u).log == u.log && AfterHandling(u).accepted == u.accepted
    ensures AfterHandling(u).slots[t.root].data.Some? ==> AfterHandling(u).slots[t.root] == u.slots[t.root]
  {
  }

  ghost predicate StartsRoot(t: Tree, s: State)
    requires t.root in s.slots
  {
    Starts(t, s.slots[t.root], t.root, RootMayStart(t, ParallelWait, s))
  }

  /** The last branch of the path ended the frame once if no branch above it threw on it, else never. */
  ghost predicate EndedUnlessThrown(log: map<Id, seq<Outcome>>, path: seq<Id>, f: Frame)
    requires |path| >= 1
  {
    var b := path[|path| - 1];
    && b in log && Increasing(Frames(log[b]))
    && (f in Frames(log[b]) <==> forall i :: 0 <= i < |path| - 1 ==> path[i] in log && Threw(f) !in log[path[i]])
  }

  lemma RootStarts(t: Tree, s: State, path: seq<Id>, f: Frame)
    requires Ok(t, ParallelWait, s) && IsDescent(t, path)
    requires StartsRoot(t, s) && f < s.slots[t.root].data.value
    ensures EndedUnlessThrown(s.log, path, f) && s.slots[t.root].data == Some(s.accepted - 1)
  {
    ReadyRoot(t, s);
    EndedAlong(t, s, path, |path| - 1, s.slots[t.root].data.value, f);
  }

  lemma ReadyRoot(t: Tree, s: State)
    requires Ok(t, ParallelWait, s) && s.slots[t.root].data.Some?
    ensures s.slots[t.root].data.value + 1 == s.accepted
    ensures Upto(Frames(s.log[t.root]), s.slots[t.root].data.value)
  {
    assert BranchOk(t, ParallelWait, s, t.root);
    var n := s.slots[t.root].data.value;
    assert Pending(s, t.root) == [n];
    var line := Line(s, t.root);
    assert line[|line| - 1] == n;
    forall i | 0 <= i < n
      ensures Frames(s.log[t.root])[i] == i
    {
      assert line[i] == i;
    }
  }

  // ---------------------------------------------------------------- not waiting: an in-order selection

  /** The places of `a`'s elements in `b`, in order. */
  ghost predicate Embeds(a: seq<Frame>, b: seq<Frame>, places: seq<nat>) {
    && |places| == |a| && Increasing(places)
    && forall i :: 0 <= i < |a| ==> places[i] < |b| && b[places[i]] == a[i]
  }

  ghost predicate Subsequence(a: seq<Frame>, b: seq<Frame>) {
    exists places :: Embeds(a, b, places)
  }

  lemma {:induction false} IncreasingSubset(a: seq<Frame>, b: seq<Frame>) returns (places: seq<nat>)
    requires Increasing(a) && Increasing(b) && forall f :: f in a ==> f in b
    ensures Embeds(a, b, places)
  {
    if a == [] {
      places := [];
    } else {
      var n := |a| - 1;
      assert forall f :: f in a[..n] ==> f in a;
      var before := IncreasingSubset(a[..n], b);
      assert a[n] in a;
      var last :| 0 <= last < |b| && b[last] == a[n];
      places := before + [last];
      forall i | 0 <= i < n
        ensures before[i] < last
      {
        assert b[before[i]] == a[i] < a[n] == b[last];
      }
    }
  }

  /** What a branch is given, and so what it ends, is an in-order selection of what its parent finished. */
  lemma InOrderSelection(t: Tree, policy: Policy, run: seq<Step>, p: Id, b: Id)
    requires IsTree(t) && After(t, policy, run).Some? && IsKid(t, p, b)
    ensures var s := After(t, policy, run).value; Subsequence(Line(s, b), Passed(s.log[p]))
  {
    var s := After(t, policy, run).value;
    EveryRunOk(t, policy, run);
    assert BranchOk(t, policy, s, b) && BranchOk(t, policy, s, p);
    assert Fed(policy, s.log[p], Line(s, b));
    PrefixIncreasing(Frames(s.log[p]), Pending(s, p));
    PassedIncreasing(s.log[p]);
    var places := IncreasingSubset(Line(s, b), Passed(s.log[p]));
  }

  lemma PrefixIncreasing(a: seq<Frame>, c: seq<Frame>)
    requires Increasing(a + c)
    ensures Increasing(a)
  {
    forall i, j | 0 <= i < j < |a|
      ensures a[i] < a[j]
    {
      assert (a + c)[i] == a[i] && (a + c)[j] == a[j];
    }
  }

  lemma {:induction false} PassedIncreasing(h: seq<Outcome>)
    requires Increasing(Frames(h))
    ensures Increasing(Passed(h))
  {
    if h != [] {
      var n := |h| - 1;
      PrefixIncreasing(Frames(h[..n]), [h[n].frame]);
      PassedIncreasing(h[..n]);
      forall g | g in Passed(h[..n])
        ensures g < h[n].frame
      {
        PassedAreFrames(h[..n], g);
        LastIsAbove(Frames(h[..n]), h[n].frame, g);
      }
      GrowIncreasing(Passed(h[..n]), h[n].frame);
    }
  }

  // ---------------------------------------------------------------- who waits for whom

  /** Whatever the other branches do: without waiting, every branch with data is at work after the scheduler's next
      turn. When waiting that is so of every branch but the root. */
  lemma ReadyStartsAtOnce(t: Tree, policy: Policy, run: seq<Step>, b: Id)
    requires IsTree(t) && After(t, policy, run).Some? && b in t.kids
    requires After(t, policy, run).value.slots[b].data.Some? && (policy == ParallelNoWait || b != t.root)
    ensures var s, r := After(t, policy, run).value, After(t, policy, run + [Iterate]);
      r.Some? && r.value.slots[b].status == Running && r.value.workers[b].queue == [s.slots[b].data.value]
  {
    var s := After(t, policy, run).value;
    EveryRunOk(t, policy, run);
    assert BranchOk(t, policy, s, b);
    OneMoreStep(t, policy, run, s, Iterate);
    IterateMeans(t, policy, s, b);
  }

  /** When waiting, the root's data is handed out by the next turn exactly if all other branches are idle; otherwise it
      stays. */
  lemma RootStartsIffRestIdle(t: Tree, run: seq<Step>)
    requires IsTree(t) && After(t, ParallelWait, run).Some?
    requires After(t, ParallelWait, run).value.slots[t.root].data.Some?
    ensures var s, r := After(t, ParallelWait, run).value, After(t, ParallelWait, run + [Iterate]);
      && r.Some?
      && (r.value.slots[t.root].status == Running <==> RestIsIdle(t, s))
      && (!RestIsIdle(t, s) ==> r.value.slots[t.root] == s.slots[t.root])
  {
    var s := After(t, ParallelWait, run).value;
    EveryRunOk(t, ParallelWait, run);
    assert BranchOk(t, ParallelWait, s, t.root);
    OneMoreStep(t, ParallelWait, run, s, Iterate);
    IterateMeans(t, ParallelWait, s, t.root);
  }

  /** The root ends its first frame, its child starts on it, and the root is given a second one. */
  ghost function TwoFrames(root: Id): seq<Step> {
    [Submit(true), Iterate, Take(root), Finish(root), Iterate, Submit(true), Iterate]
  }

  /** Slots and workers of the root and one of its children. */
  ghost predicate Both(t: Tree, s: State, c: Id, root: Slot, rootWorker: Worker, kid: Slot, kidWorker: Worker)
    requires Shape(t, s) && c in t.kids
  {
    && s.slots[t.root] == root && s.workers[t.root] == rootWorker
    && s.slots[c] == kid && s.workers[c] == kidWorker
  }

  const FREE := Worker([], None, 0)

  lemma FirstStarts(t: Tree, policy: Policy, c: Id) returns (s: State)
    requires IsTree(t) && IsKid(t, t.root, c)
    ensures After(t, policy, [Submit(true), Iterate]) == Some(s) && s.accepted == 1
    ensures Both(t, s, c, Slot(None, Running), Worker([0], None, 0), EMPTY, FREE)
  {
    var s0 := Initial(t);
    assert After(t, policy, []) == Some(s0);
    OneMoreStep(t, policy, [], s0, Submit(true));
    var s1 := Next(t, policy, s0, Submit(true));
    assert [] + [Submit(true)] == [Submit(true)];
    EveryRunOk(t, policy, [Submit(true)]);
    OneMoreStep(t, policy, [Submit(true)], s1, Iterate);
    IterateMeans(t, policy, s1, t.root);
    IterateMeans(t, policy, s1, c);
    assert [Submit(true)] + [Iterate] == [Submit(true), Iterate];
    s := Next(t, policy, s1, Iterate);
  }

  lemma FirstTaken(t: Tree, policy: Policy, c: Id) returns (s: State)
    requires IsTree(t) && IsKid(t, t.root, c)
    ensures After(t, policy, [Submit(true), Iterate, Take(t.root)]) == Some(s) && s.accepted == 1
    ensures Both(t, s, c, Slot(None, Running), Worker([], Some(0), 0), EMPTY, FREE)
  {
    var run := [Submit(true), Iterate];
    var s2 := FirstStarts(t, policy, c);
    OneMoreStep(t, policy, run, s2, Take(t.root));
    assert run + [Take(t.root)] == [Submit(true), Iterate, Take(t.root)];
    s := Next(t, policy, s2, Take(t.root));
  }

  lemma FirstFinishes(t: Tree, policy: Policy, c: Id) returns (s: State)
    requires IsTree(t) && IsKid(t, t.root, c)
    ensures After(t, policy, [Submit(true), Iterate, Take(t.root), Finish(t.root)]) == Some(s) && s.accepted == 1
    ensures Both(t, s, c, EMPTY, FREE, Slot(Some(0), Ready), FREE)
  {
    var run := [Submit(true), Iterate, Take(t.root)];
    var s3 := FirstTaken(t, policy, c);
    OneMoreStep(t, policy, run, s3, Finish(t.root));
    assert run + [Finish(t.root)] == [Submit(true), Iterate, Take(t.root), Finish(t.root)];
    s := Next(t, policy, s3, Finish(t.root));
  }

  lemma ChildStarts(t: Tree, policy: Policy, c: Id) returns (s: State)
    requires IsTree(t) && IsKid(t, t.root, c)
    ensures After(t, policy, [Submit(true), Iterate, Take(t.root), Finish(t.root), Iterate]) == Some(s)
    ensures s.accepted == 1 && Both(t, s, c, EMPTY, FREE, Slot(None, Running), Worker([0], None, 0))
  {
    var run := [Submit(true), Iterate, Take(t.root), Finish(t.root)];
    var s4 := FirstFinishes(t, policy, c);
    EveryRunOk(t, policy, run);
    OneMoreStep(t, policy, run, s4, Iterate);
    IterateMeans(t, policy, s4, t.root);
    IterateMeans(t, policy, s4, c);
    assert run + [Iterate] == [Submit(true), Iterate, Take(t.root), Finish(t.root), Iterate];
    s := Next(t, policy, s4, Iterate);
  }

  lemma SecondSubmitted(t: Tree, policy: Policy, c: Id) returns (s: State)
    requires IsTree(t) && IsKid(t, t.root, c)
    ensures After(t, policy, [Submit(true), Iterate, Take(t.root), Finish(t.root), Iterate, Submit(true)]) == Some(s)
    ensures Both(t, s, c, Slot(Some(1), Ready), FREE, Slot(None, Running), Worker([0], None, 0))
  {
    var run := [Submit(true), Iterate, Take(t.root), Finish(t.root), Iterate];
    var u := ChildStarts(t, policy, c);
    OneMoreStep(t, policy, run, u, Submit(true));
    assert run + [Submit(true)] == [Submit(true), Iterate, Take(t.root), Finish(t.root), Iterate, Submit(true)];
    s := Next(t, policy, u, Submit(true));
  }

  lemma ThenBothTurn(t: Tree, policy: Policy, s: State, c: Id)
    requires Ok(t, policy, s) && IsKid(t, t.root, c)
    requires Both(t, s, c, Slot(Some(1), Ready), FREE, Slot(None, Running), Worker([0], None, 0))
    ensures var r := Next(t, policy, s, Iterate);
      if policy == ParallelNoWait
      then Both(t, r, c, Slot(None, Running), Worker([1], None, 0), Slot(None, Running), Worker([0], None, 0))
      else Both(t, r, c, Slot(Some(1), Ready), FREE, Slot(None, Running), Worker([0], None, 0))
  {
    IterateMeans(t, policy, s, c);
    IterateMeans(t, policy, s, t.root);
    assert !RestIsIdle(t, s);
  }

  /** The child is at work on frame 0; so is the root on frame 1, unless it waits. */
  lemma TheyWorkSideBySide(t: Tree, policy: Policy, c: Id)
    requires IsTree(t) && IsKid(t, t.root, c)
    ensures var r := After(t, policy, TwoFrames(t.root));
      r.Some? && if policy == ParallelNoWait
                 then Both(t, r.value, c, Slot(None, Running), Worker([1], None, 0), Slot(None, Running),
                           Worker([0], None, 0))
                 else Both(t, r.value, c, Slot(Some(1), Ready), FREE, Slot(None, Running), Worker([0], None, 0))
  {
    var run := [Submit(true), Iterate, Take(t.root), Finish(t.root), Iterate, Submit(true)];
    var v := SecondSubmitted(t, policy, c);
    EveryRunOk(t, policy, run);
    OneMoreStep(t, policy, run, v, Iterate);
    ThenBothTurn(t, policy, v, c);
    assert run + [Iterate] == TwoFrames(t.root);
  }
}
