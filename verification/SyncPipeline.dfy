/** A synchronous run: branches are processed breadth first from the root, each one node by node. A node runs
    once for every way that leads to it from the root. */
module SyncPipeline {
  import opened Graph
  import opened Pipeline

  // ---------------------------------------------------------------- reachability

  ghost predicate IsPath(nodes: Nodes, path: seq<Id>) {
    && |path| >= 1
    && (forall k :: 0 <= k < |path| ==> path[k] in nodes)
    && (forall j, k :: 0 <= j < k < |path| && k == j + 1 ==> path[j] in nodes && path[k] in nodes[path[j]].children)
  }

  ghost predicate Reachable(nodes: Nodes, a: Id, b: Id) {
    exists path :: IsPath(nodes, path) && path[0] == a && path[|path| - 1] == b
  }

  lemma ReachSelf(nodes: Nodes, a: Id)
    requires a in nodes
    ensures Reachable(nodes, a, a)
  {
    assert IsPath(nodes, [a]);
  }

  lemma ReachChild(nodes: Nodes, a: Id, b: Id, c: Id)
    requires Reachable(nodes, a, b) && b in nodes && c in nodes && c in nodes[b].children
    ensures Reachable(nodes, a, c)
  {
    var path :| IsPath(nodes, path) && path[0] == a && path[|path| - 1] == b;
    assert IsPath(nodes, path + [c]);
  }

  lemma ReachThrough(nodes: Nodes, a: Id, c: Id, b: Id)
    requires a in nodes && c in nodes[a].children && Reachable(nodes, c, b)
    ensures Reachable(nodes, a, b)
  {
    var path :| IsPath(nodes, path) && path[0] == c && path[|path| - 1] == b;
    var longer := [a] + path;
    assert IsPath(nodes, longer) && longer[0] == a && longer[|longer| - 1] == b;
  }

  // ---------------------------------------------------------------- counting ways

  /** A numbering in which every edge leads downwards. */
  ghost predicate Falling(nodes: Nodes, height: map<Id, nat>) {
    && height.Keys == nodes.Keys
    && forall a, b {:trigger b in nodes[a].children} ::
         a in nodes && b in nodes[a].children ==> b in nodes && height[b] < height[a]
  }

  lemma AcyclicFalls(nodes: Nodes)
    requires Mirrored(nodes) && Acyclic(nodes)
    ensures exists height :: Falling(nodes, height)
  {
    var rank :| Ranked(nodes, rank);
    var top := RankBound(rank);
    var height: map<Id, nat> := map a | a in nodes :: top - rank[a];
    assert Falling(nodes, height);
  }

  ghost function HeightOf(nodes: Nodes): (height: map<Id, nat>)
    requires Mirrored(nodes) && Acyclic(nodes)
    ensures Falling(nodes, height)
  {
    AcyclicFalls(nodes);
    var height :| Falling(nodes, height);
    height
  }

  ghost predicate Within(height: map<Id, nat>, s: seq<Id>, bound: nat) {
    forall x :: x in s ==> x in height && height[x] < bound
  }

  /** The least bound of the heights in `s`. */
  ghost function Top(height: map<Id, nat>, s: seq<Id>): (bound: nat)
    ensures (forall x :: x in s ==> x in height) ==> Within(height, s, bound)
    ensures forall b :: Within(height, s, b) ==> bound <= b
  {
    if s == [] then 0
    else
      var rest := Top(height, s[1..]);
      assert forall b {:trigger Within(height, s, b)} :: Within(height, s, b) ==>
               Within(height, s[1..], b) && s[0] in height && height[s[0]] < b;
      if s[0] in height && height[s[0]] >= rest then height[s[0]] + 1 else rest
  }

  /** The number of ways from `a` to a member of `targets`. */
  ghost function Ways(nodes: Nodes, height: map<Id, nat>, a: Id, targets: set<Id>): nat
    requires Falling(nodes, height) && a in nodes
    decreases height[a], |nodes[a].children| + 1
  {
    assert Within(height, nodes[a].children, height[a]);
    (if a in targets then 1 else 0) + WaysFrom(nodes, height, nodes[a].children, targets)
  }

  ghost function WaysFrom(nodes: Nodes, height: map<Id, nat>, s: seq<Id>, targets: set<Id>): nat
    requires Falling(nodes, height) && forall x :: x in s ==> x in nodes
    decreases Top(height, s), |s|
  {
    if s == [] then 0
    else
      assert s[0] in s && Within(height, s[1..], Top(height, s));
      Ways(nodes, height, s[0], targets) + WaysFrom(nodes, height, s[1..], targets)
  }

  /** Ways to `v` from the members of `s` lead through `v` itself or through one of its parents. */
  lemma {:induction false} EnteringFrom(nodes: Nodes, height: map<Id, nat>, s: seq<Id>, v: Id)
    requires Mirrored(nodes) && Falling(nodes, height) && v in nodes && forall x :: x in s ==> x in nodes
    ensures WaysFrom(nodes, height, s, {v}) == multiset(s)[v] + WaysFrom(nodes, height, s, Parents(nodes, v))
    decreases Top(height, s), |s|
  {
    if s != [] {
      assert s[0] in s && Within(height, s[1..], Top(height, s));
      EnteringWays(nodes, height, s[0], v);
      EnteringFrom(nodes, height, s[1..], v);
      assert s == [s[0]] + s[1..];
    }
  }

  ghost function Parents(nodes: Nodes, v: Id): set<Id>
    requires v in nodes
  {
    set p | p in nodes[v].parents
  }

  /** There are as many ways to a node as to its parents, and one more from the node itself. */
  lemma {:induction false} EnteringWays(nodes: Nodes, height: map<Id, nat>, a: Id, v: Id)
    requires Mirrored(nodes) && Falling(nodes, height) && a in nodes && v in nodes
    ensures Ways(nodes, height, a, {v}) == (if a == v then 1 else 0) + Ways(nodes, height, a, Parents(nodes, v))
    decreases height[a], |nodes[a].children| + 1
  {
    var kids := nodes[a].children;
    assert Within(height, kids, height[a]);
    EnteringFrom(nodes, height, kids, v);
    CountOnce(kids, v);
    assert v in kids <==> a in Parents(nodes, v);
  }

  lemma {:induction false} CountOnce(s: seq<Id>, v: Id)
    requires NoRepeat(s)
    ensures multiset(s)[v] == if v in s then 1 else 0
  {
    if s != [] {
      assert s == [s[0]] + s[1..];
      assert NoRepeat(s[1..]) by {
        assert forall i :: 0 <= i < |s[1..]| ==> s[1..][i] == s[i + 1];
      }
      assert forall i :: 0 <= i < |s[1..]| ==> s[1..][i] == s[i + 1] && s[i + 1] != s[0];
      CountOnce(s[1..], v);
    }
  }

  /** There is a way exactly to what is reachable. */
  lemma {:induction false} WaysReach(nodes: Nodes, height: map<Id, nat>, a: Id, targets: set<Id>)
    requires Falling(nodes, height) && a in nodes
    ensures Ways(nodes, height, a, targets) > 0 <==> exists v :: v in targets && Reachable(nodes, a, v)
  {
    if Ways(nodes, height, a, targets) > 0 {
      var v := WayFound(nodes, height, a, targets);
    }
    if v :| v in targets && Reachable(nodes, a, v) {
      var path :| IsPath(nodes, path) && path[0] == a && path[|path| - 1] == v;
      PathIsWay(nodes, height, path, targets);
    }
  }

  lemma {:induction false} WayFound(nodes: Nodes, height: map<Id, nat>, a: Id, targets: set<Id>) returns (v: Id)
    requires Falling(nodes, height) && a in nodes && Ways(nodes, height, a, targets) > 0
    ensures v in targets && Reachable(nodes, a, v)
    decreases height[a]
  {
    if a in targets {
      v := a;
      ReachSelf(nodes, a);
    } else {
      var c := SomeWay(nodes, height, nodes[a].children, targets);
      v := WayFound(nodes, height, c, targets);
      ReachThrough(nodes, a, c, v);
    }
  }

  lemma {:induction false} SomeWay(nodes: Nodes, height: map<Id, nat>, s: seq<Id>, targets: set<Id>) returns (c: Id)
    requires Falling(nodes, height) && (forall x :: x in s ==> x in nodes) && WaysFrom(nodes, height, s, targets) > 0
    ensures c in s && Ways(nodes, height, c, targets) > 0
  {
    if Ways(nodes, height, s[0], targets) > 0 {
      c := s[0];
    } else {
      c := SomeWay(nodes, height, s[1..], targets);
    }
  }

  lemma {:induction false} PathIsWay(nodes: Nodes, height: map<Id, nat>, path: seq<Id>, targets: set<Id>)
    requires Falling(nodes, height) && IsPath(nodes, path) && path[|path| - 1] in targets
    ensures Ways(nodes, height, path[0], targets) > 0
  {
    if |path| > 1 {
      var rest := path[1..];
      assert IsPath(nodes, rest);
      PathIsWay(nodes, height, rest, targets);
      assert path[1] in nodes[path[0]].children;
      MemberWays(nodes, height, nodes[path[0]].children, path[1], targets);
    }
  }

  lemma {:induction false} MemberWays(nodes: Nodes, height: map<Id, nat>, s: seq<Id>, c: Id, targets: set<Id>)
    requires Falling(nodes, height) && (forall x :: x in s ==> x in nodes) && c in s
    ensures WaysFrom(nodes, height, s, targets) >= Ways(nodes, height, c, targets)
  {
    if s[0] != c {
      MemberWays(nodes, height, s[1..], c, targets);
    }
  }

  /** Ways to either of two disjoint sets add up. */
  lemma {:induction false} WaysAdd(nodes: Nodes, height: map<Id, nat>, a: Id, some: set<Id>, others: set<Id>)
    requires Falling(nodes, height) && a in nodes && some !! others
    ensures Ways(nodes, height, a, some + others) == Ways(nodes, height, a, some) + Ways(nodes, height, a, others)
    decreases height[a], |nodes[a].children| + 1
  {
    assert Within(height, nodes[a].children, height[a]);
    WaysFromAdd(nodes, height, nodes[a].children, some, others);
  }

  lemma {:induction false} WaysFromAdd(nodes: Nodes, height: map<Id, nat>, s: seq<Id>, some: set<Id>, others: set<Id>)
    requires Falling(nodes, height) && (forall x :: x in s ==> x in nodes) && some !! others
    ensures WaysFrom(nodes, height, s, some + others) ==
            WaysFrom(nodes, height, s, some) + WaysFrom(nodes, height, s, others)
    decreases Top(height, s), |s|
  {
    if s != [] {
      assert s[0] in s && Within(height, s[1..], Top(height, s));
      WaysAdd(nodes, height, s[0], some, others);
      WaysFromAdd(nodes, height, s[1..], some, others);
    }
  }

  lemma {:induction false} WaysFromJoin(nodes: Nodes, height: map<Id, nat>, s: seq<Id>, t: seq<Id>, targets: set<Id>)
    requires Falling(nodes, height) && (forall x :: x in s ==> x in nodes) && forall x :: x in t ==> x in nodes
    ensures forall x :: x in s + t ==> x in nodes
    ensures WaysFrom(nodes, height, s + t, targets) ==
            WaysFrom(nodes, height, s, targets) + WaysFrom(nodes, height, t, targets)
  {
    if s == [] {
      assert s + t == t;
    } else {
      WaysFromJoin(nodes, height, s[1..], t, targets);
      assert (s + t)[1..] == s[1..] + t;
    }
  }

  // ---------------------------------------------------------------- nodes with one way

  /** The parents through which `v` can be entered from `root`. */
  ghost function Entries(nodes: Nodes, root: Id, v: Id): set<Id>
    requires v in nodes
  {
    set p | p in nodes[v].parents && Reachable(nodes, root, p)
  }

  /** Every reachable node but the root has exactly one reachable parent. */
  ghost predicate EnteredOnce(nodes: Nodes, root: Id) {
    forall v {:trigger Entries(nodes, root, v)} ::
      v in nodes && v != root && Reachable(nodes, root, v) ==> |Entries(nodes, root, v)| == 1
  }

  ghost predicate OneWay(nodes: Nodes, height: map<Id, nat>, root: Id, v: Id)
    requires Falling(nodes, height) && root in nodes
  {
    Ways(nodes, height, root, {v}) <= 1
  }

  lemma {:induction false} PathFalls(nodes: Nodes, height: map<Id, nat>, path: seq<Id>, k: int)
    requires Falling(nodes, height) && IsPath(nodes, path) && 0 <= k < |path|
    ensures height[path[k]] <= height[path[0]]
    decreases k
  {
    if k > 0 {
      assert path[k] in nodes[path[k - 1]].children;
      PathFalls(nodes, height, path, k - 1);
    }
  }

  lemma ReachableIsLower(nodes: Nodes, height: map<Id, nat>, a: Id, b: Id)
    requires Falling(nodes, height) && Reachable(nodes, a, b)
    ensures a in nodes && b in nodes && height[b] <= height[a]
  {
    var path :| IsPath(nodes, path) && path[0] == a && path[|path| - 1] == b;
    PathFalls(nodes, height, path, |path| - 1);
  }

  /** All ways to the parents of `v` lead to those that can be entered. */
  lemma WaysToEntries(nodes: Nodes, height: map<Id, nat>, root: Id, v: Id)
    requires Falling(nodes, height) && root in nodes && v in nodes
    ensures Ways(nodes, height, root, Parents(nodes, v)) == Ways(nodes, height, root, Entries(nodes, root, v))
  {
    var entries := Entries(nodes, root, v);
    var others := Parents(nodes, v) - entries;
    WaysAdd(nodes, height, root, entries, others);
    assert Parents(nodes, v) == entries + others;
    WaysReach(nodes, height, root, others);
  }

  lemma ParentIsHigher(nodes: Nodes, height: map<Id, nat>, p: Id, v: Id)
    requires Mirrored(nodes) && Falling(nodes, height) && v in nodes && p in nodes[v].parents
    ensures p in nodes && height[v] < height[p]
  {
    assert v in nodes[p].children;
  }

  lemma OneWayToRoot(nodes: Nodes, height: map<Id, nat>, root: Id)
    requires Mirrored(nodes) && Falling(nodes, height) && root in nodes
    ensures Ways(nodes, height, root, {root}) == 1
  {
    EnteringWays(nodes, height, root, root);
    WaysReach(nodes, height, root, Parents(nodes, root));
    if p :| p in Parents(nodes, root) && Reachable(nodes, root, p) {
      ParentIsHigher(nodes, height, p, root);
      ReachableIsLower(nodes, height, root, p);
      assert false;
    }
  }

  lemma {:induction false} EnteredOnceHasOneWay(nodes: Nodes, height: map<Id, nat>, top: nat, root: Id, v: Id)
    requires Mirrored(nodes) && Falling(nodes, height) && root in nodes && v in nodes && EnteredOnce(nodes, root)
    requires forall a :: a in nodes ==> height[a] <= top
    ensures OneWay(nodes, height, root, v)
    decreases top - height[v]
  {
    if v == root {
      OneWayToRoot(nodes, height, root);
    } else {
      EnteringWays(nodes, height, root, v);
      WaysToEntries(nodes, height, root, v);
      var entries := Entries(nodes, root, v);
      WaysReach(nodes, height, root, entries);
      if p :| p in entries && Reachable(nodes, root, p) {
        assert v in nodes[p].children;
        ReachChild(nodes, root, p, v);
        Singleton(entries, p);
        EnteredOnceHasOneWay(nodes, height, top, root, p);
      }
    }
  }

  lemma Singleton(s: set<Id>, p: Id)
    requires |s| == 1 && p in s
    ensures s == {p}
  {
    assert |s - {p}| == 0;
  }

  lemma OneWayIsEnteredOnce(nodes: Nodes, height: map<Id, nat>, root: Id, v: Id)
    requires Mirrored(nodes) && Falling(nodes, height) && root in nodes && v in nodes && v != root
    requires Reachable(nodes, root, v) && OneWay(nodes, height, root, v)
    ensures |Entries(nodes, root, v)| == 1
  {
    EnteringWays(nodes, height, root, v);
    WaysToEntries(nodes, height, root, v);
    WaysReach(nodes, height, root, {v});
    var entries := Entries(nodes, root, v);
    WaysReach(nodes, height, root, entries);
    var p :| p in entries;
    assert entries == {p} + (entries - {p});
    WaysAdd(nodes, height, root, {p}, entries - {p});
    WaysReach(nodes, height, root, {p});
    WaysReach(nodes, height, root, entries - {p});
    assert entries - {p} == {};
  }

  /** No node has two ways exactly if every reachable node but the root has one reachable parent. */
  lemma OneWayIff(nodes: Nodes, height: map<Id, nat>, root: Id)
    requires Mirrored(nodes) && Falling(nodes, height) && root in nodes
    ensures (forall v :: v in nodes ==> OneWay(nodes, height, root, v)) <==> EnteredOnce(nodes, root)
  {
    if forall v :: v in nodes ==> OneWay(nodes, height, root, v) {
      forall v | v in nodes && v != root && Reachable(nodes, root, v)
        ensures |Entries(nodes, root, v)| == 1
      {
        OneWayIsEnteredOnce(nodes, height, root, v);
      }
    }
    if EnteredOnce(nodes, root) {
      var top := RankBound(height);
      forall v | v in nodes
        ensures OneWay(nodes, height, root, v)
      {
        EnteredOnceHasOneWay(nodes, height, top, root, v);
      }
    }
  }

  /** With at most one parent per node every node is entered at most once. */
  lemma SingleParentsEnterOnce(nodes: Nodes, height: map<Id, nat>, root: Id)
    requires Mirrored(nodes) && Falling(nodes, height) && root in nodes && AtMostOneParent(nodes)
    ensures EnteredOnce(nodes, root)
  {
    forall v | v in nodes && v != root && Reachable(nodes, root, v)
      ensures |Entries(nodes, root, v)| == 1
    {
      var p := SomeEntry(nodes, height, root, v);
      OnlyEntry(nodes, root, v, p);
    }
  }

  lemma OnlyEntry(nodes: Nodes, root: Id, v: Id, p: Id)
    requires v in nodes && |nodes[v].parents| <= 1 && p in nodes[v].parents && Reachable(nodes, root, p)
    ensures |Entries(nodes, root, v)| == 1
  {
    assert nodes[v].parents[0] == p;
    assert Entries(nodes, root, v) == {p};
  }

  lemma SomeEntry(nodes: Nodes, height: map<Id, nat>, root: Id, v: Id) returns (p: Id)
    requires Mirrored(nodes) && Falling(nodes, height) && root in nodes && v in nodes && v != root
    requires Reachable(nodes, root, v)
    ensures p in nodes[v].parents && Reachable(nodes, root, p)
  {
    WaysReach(nodes, height, root, {v});
    EnteringWays(nodes, height, root, v);
    WaysReach(nodes, height, root, Parents(nodes, v));
    p :| p in Parents(nodes, v) && Reachable(nodes, root, p);
  }

  // ---------------------------------------------------------------- the run

  /** Position `i` of a log is the root's or comes after a parent's. */
  ghost predicate AfterParent(nodes: Nodes, root: Id, log: seq<Id>, i: int)
    requires 0 <= i < |log|
  {
    log[i] == root || exists j :: 0 <= j < i && log[i] in nodes && log[j] in nodes[log[i]].parents
  }

  ghost predicate ParentLogged(nodes: Nodes, root: Id, log: seq<Id>, v: Id) {
    v == root || (v in nodes && exists p :: p in nodes[v].parents && p in log)
  }

  /** Runs so far, and those still to come through the queue, are the ways from the root. */
  ghost predicate Accounted(nodes: Nodes, height: map<Id, nat>, root: Id, queue: seq<Id>, log: seq<Id>, v: Id)
    requires Falling(nodes, height) && root in nodes && forall q :: q in queue ==> q in nodes
  {
    multiset(log)[v] + WaysFrom(nodes, height, queue, {v}) == Ways(nodes, height, root, {v})
  }

  ghost predicate Breadth(nodes: Nodes, height: map<Id, nat>, heads: set<Id>, root: Id, queue: seq<Id>, log: seq<Id>)
    requires Falling(nodes, height) && root in nodes && heads <= nodes.Keys
  {
    && (forall q :: q in queue ==> q in heads)
    && (forall q {:trigger ParentLogged(nodes, root, log, q)} :: q in queue ==> ParentLogged(nodes, root, log, q))
    && (forall i :: 0 <= i < |log| ==> AfterParent(nodes, root, log, i))
    && (forall v :: Accounted(nodes, height, root, queue, log, v))
  }

  /** The ways from a node of a chain: those to the rest of the chain and those from its last node's children. */
  lemma {:induction false} ChainWays(nodes: Nodes, height: map<Id, nat>, heads: set<Id>, c: seq<Id>, h: Id, k: int,
                                     v: Id)
    requires Mirrored(nodes) && Falling(nodes, height) && AreHeads(nodes, heads) && IsChain(nodes, heads, c, h)
    requires 0 <= k < |c|
    ensures forall x :: x in nodes[c[|c| - 1]].children ==> x in nodes
    ensures Ways(nodes, height, c[k], {v}) ==
            multiset(c[k..])[v] + WaysFrom(nodes, height, nodes[c[|c| - 1]].children, {v})
    decreases |c| - k
  {
    var s := c[k..];
    assert s == [c[k]] + c[k + 1..];
    assert multiset(s)[v] == (if c[k] == v then 1 else 0) + multiset(c[k + 1..])[v];
    if k < |c| - 1 {
      InnerChild(nodes, heads, c, h, k);
      ChainWays(nodes, height, heads, c, h, k + 1, v);
      assert WaysFrom(nodes, height, nodes[c[k]].children, {v}) == Ways(nodes, height, c[k + 1], {v});
    }
  }

  lemma InnerChild(nodes: Nodes, heads: set<Id>, c: seq<Id>, h: Id, k: int)
    requires Mirrored(nodes) && AreHeads(nodes, heads) && IsChain(nodes, heads, c, h) && 0 <= k < |c| - 1
    ensures nodes[c[k]].children == [c[k + 1]]
  {
    assert Follows(nodes, heads, c[k], c[k + 1]);
    assert c[k + 1] in nodes[c[k]].children;
    OnlyChild(nodes, heads, c[k], c[k + 1]);
  }

  /** Running a chain uses up at least its head's own run. */
  lemma {:induction false} ChainWork(nodes: Nodes, height: map<Id, nat>, heads: set<Id>, c: seq<Id>, h: Id, k: int)
    requires Mirrored(nodes) && Falling(nodes, height) && AreHeads(nodes, heads) && IsChain(nodes, heads, c, h)
    requires 0 <= k < |c|
    ensures forall x :: x in nodes[c[|c| - 1]].children ==> x in nodes
    ensures Ways(nodes, height, c[k], nodes.Keys) > WaysFrom(nodes, height, nodes[c[|c| - 1]].children, nodes.Keys)
    decreases |c| - k
  {
    if k < |c| - 1 {
      InnerChild(nodes, heads, c, h, k);
      ChainWork(nodes, height, heads, c, h, k + 1);
      assert WaysFrom(nodes, height, nodes[c[k]].children, nodes.Keys) == Ways(nodes, height, c[k + 1], nodes.Keys);
    }
  }

  lemma ChainAfterParents(nodes: Nodes, heads: set<Id>, root: Id, log: seq<Id>, c: seq<Id>, h: Id, i: int)
    requires Mirrored(nodes) && IsChain(nodes, heads, c, h) && ParentLogged(nodes, root, log, h)
    requires forall j :: 0 <= j < |log| ==> AfterParent(nodes, root, log, j)
    requires 0 <= i < |log + c|
    ensures AfterParent(nodes, root, log + c, i)
  {
    var log' := log + c;
    if i < |log| {
      assert AfterParent(nodes, root, log, i);
      assert log'[i] == log[i];
      if log[i] != root {
        var j :| 0 <= j < i && log[i] in nodes && log[j] in nodes[log[i]].parents;
        assert log'[j] == log[j];
      }
    } else if i == |log| {
      if h != root {
        var p :| p in nodes[h].parents && p in log;
        var j :| 0 <= j < |log| && log[j] == p;
        assert log'[j] == p;
      }
    } else {
      PreviousInChain(nodes, heads, c, h, i - |log|);
      assert log'[i - 1] == c[i - 1 - |log|] && log'[i] == c[i - |log|];
    }
  }

  lemma StepQueue(nodes: Nodes, heads: set<Id>, root: Id, queue: seq<Id>, log: seq<Id>, c: seq<Id>, h: Id, q: Id)
    requires Mirrored(nodes) && AreHeads(nodes, heads) && IsChain(nodes, heads, c, h) && queue != []
    requires forall q :: q in queue ==> q in heads
    requires forall q {:trigger ParentLogged(nodes, root, log, q)} :: q in queue ==> ParentLogged(nodes, root, log, q)
    requires q in queue[1..] + nodes[c[|c| - 1]].children
    ensures q in heads && ParentLogged(nodes, root, log + c, q)
  {
    if q in nodes[c[|c| - 1]].children {
      LastChildrenAreHeads(nodes, heads, c, h, q);
      assert c[|c| - 1] in nodes[q].parents && c[|c| - 1] in log + c;
    } else {
      assert q in queue;
      assert ParentLogged(nodes, root, log, q);
      if q != root {
        var p :| p in nodes[q].parents && p in log;
        assert p in log + c;
      }
    }
  }

  lemma StepAccounted(nodes: Nodes, height: map<Id, nat>, heads: set<Id>, root: Id, queue: seq<Id>, log: seq<Id>,
                      c: seq<Id>, v: Id)
    requires Mirrored(nodes) && Falling(nodes, height) && AreHeads(nodes, heads) && root in nodes && queue != []
    requires (forall q :: q in queue ==> q in nodes) && IsChain(nodes, heads, c, queue[0])
    requires Accounted(nodes, height, root, queue, log, v)
    ensures forall q :: q in queue[1..] + nodes[c[|c| - 1]].children ==> q in nodes
    ensures Accounted(nodes, height, root, queue[1..] + nodes[c[|c| - 1]].children, log + c, v)
  {
    ChainWays(nodes, height, heads, c, queue[0], 0, v);
    assert c[0..] == c;
    WaysFromJoin(nodes, height, queue[1..], nodes[c[|c| - 1]].children, {v});
  }

  /** What the queue and the log become when the first head is taken off the queue and its chain is run. */
  lemma BreadthStep(nodes: Nodes, height: map<Id, nat>, heads: set<Id>, root: Id, queue: seq<Id>, log: seq<Id>,
                    c: seq<Id>)
    requires Mirrored(nodes) && Falling(nodes, height) && AreHeads(nodes, heads) && root in nodes && queue != []
    requires Breadth(nodes, height, heads, root, queue, log) && IsChain(nodes, heads, c, queue[0])
    ensures Breadth(nodes, height, heads, root, queue[1..] + nodes[c[|c| - 1]].children, log + c)
    ensures WaysFrom(nodes, height, queue, nodes.Keys) >
            WaysFrom(nodes, height, queue[1..] + nodes[c[|c| - 1]].children, nodes.Keys)
  {
    var kids := nodes[c[|c| - 1]].children;
    assert queue[0] in queue;
    ChainWork(nodes, height, heads, c, queue[0], 0);
    WaysFromJoin(nodes, height, queue[1..], kids, nodes.Keys);
    forall q | q in queue[1..] + kids
      ensures q in heads && ParentLogged(nodes, root, log + c, q)
    {
      StepQueue(nodes, heads, root, queue, log, c, queue[0], q);
    }
    forall v
      ensures Accounted(nodes, height, root, queue[1..] + kids, log + c, v)
    {
      assert Accounted(nodes, height, root, queue, log, v);
      StepAccounted(nodes, height, heads, root, queue, log, c, v);
    }
    forall i | 0 <= i < |log + c|
      ensures AfterParent(nodes, root, log + c, i)
    {
      ChainAfterParents(nodes, heads, root, log, c, queue[0], i);
    }
  }

  /** Every node runs once for each way that leads to it from the root, and after a parent. */
  ghost predicate RunsEachWay(nodes: Nodes, height: map<Id, nat>, root: Id, log: seq<Id>)
    requires Falling(nodes, height) && root in nodes
  {
    && (forall v :: multiset(log)[v] == Ways(nodes, height, root, {v}))
    && (forall i :: 0 <= i < |log| ==> AfterParent(nodes, root, log, i))
  }

  lemma EmptyQueueRanAll(nodes: Nodes, height: map<Id, nat>, heads: set<Id>, root: Id, log: seq<Id>)
    requires Falling(nodes, height) && root in nodes && heads <= nodes.Keys
    requires Breadth(nodes, height, heads, root, [], log)
    ensures RunsEachWay(nodes, height, root, log)
  {
    forall v
      ensures multiset(log)[v] == Ways(nodes, height, root, {v})
    {
      assert Accounted(nodes, height, root, [], log, v);
    }
  }

  /** Exactly the reachable nodes have run. */
  lemma RunsReachable(nodes: Nodes, height: map<Id, nat>, root: Id, log: seq<Id>, v: Id)
    requires Falling(nodes, height) && root in nodes && RunsEachWay(nodes, height, root, log)
    ensures v in log <==> Reachable(nodes, root, v)
  {
    WaysReach(nodes, height, root, {v});
    assert v in log <==> v in multiset(log);
  }

  lemma {:induction false} CountNoRepeat(s: seq<Id>)
    ensures NoRepeat(s) <==> forall v :: multiset(s)[v] <= 1
  {
    if NoRepeat(s) {
      forall v
        ensures multiset(s)[v] <= 1
      {
        CountOnce(s, v);
      }
    } else {
      var i, j :| 0 <= i < j < |s| && s[i] == s[j];
      assert s == s[..j] + s[j..];
      assert s[..j][i] in s[..j] && s[j..][0] in s[j..];
      assert multiset(s)[s[i]] == multiset(s[..j])[s[i]] + multiset(s[j..])[s[i]];
    }
  }

  /** No node runs twice exactly if every node reachable from the root, but the root, has one reachable parent. */
  lemma NoRepeatIff(nodes: Nodes, height: map<Id, nat>, root: Id, log: seq<Id>)
    requires Mirrored(nodes) && Falling(nodes, height) && root in nodes && RunsEachWay(nodes, height, root, log)
    ensures NoRepeat(log) <==> EnteredOnce(nodes, root)
  {
    CountNoRepeat(log);
    OneWayIff(nodes, height, root);
    if forall v :: v in nodes ==> OneWay(nodes, height, root, v) {
      forall v
        ensures multiset(log)[v] <= 1
      {
        if v in nodes {
          assert OneWay(nodes, height, root, v);
        } else {
          RunsReachable(nodes, height, root, log, v);
        }
      }
    }
    if forall v :: multiset(log)[v] <= 1 {
      forall v | v in nodes
        ensures OneWay(nodes, height, root, v)
      {
        assert multiset(log)[v] <= 1;
      }
    }
  }

  /** Runs the nodes of one branch in order (PipelineBranch::process). */
  method ProcessBranch(branch: seq<Id>, log: seq<Id>) returns (r: seq<Id>)
    ensures r == log + branch
  {
    r := log;
    for i := 0 to |branch|
      invariant r == log + branch[..i]
    {
      assert branch[..i + 1] == branch[..i] + [branch[i]];
      r := r + [branch[i]];
    }
    assert branch[..|branch|] == branch;
  }

  lemma BreadthStarts(nodes: Nodes, height: map<Id, nat>, heads: set<Id>, root: Id)
    requires Falling(nodes, height) && heads <= nodes.Keys && root in heads
    ensures Breadth(nodes, height, heads, root, [root], [])
  {
    forall v
      ensures Accounted(nodes, height, root, [root], [], v)
    {
      assert WaysFrom(nodes, height, [root], {v}) == Ways(nodes, height, root, {v});
    }
  }

  // ---------------------------------------------------------------- the order of the branches

  /** The children of the last node of branch `h`. */
  ghost function KidsOf(nodes: Nodes, branches: map<Id, seq<Id>>, h: Id): seq<Id> {
    if h in branches && branches[h] != [] && branches[h][|branches[h]| - 1] in nodes
    then nodes[branches[h][|branches[h]| - 1]].children else []
  }

  ghost function AllKids(nodes: Nodes, branches: map<Id, seq<Id>>, runs: seq<Id>): seq<Id> {
    if runs == [] then []
    else AllKids(nodes, branches, runs[..|runs| - 1]) + KidsOf(nodes, branches, runs[|runs| - 1])
  }

  /** The nodes of the branches one after the other. */
  ghost function NodesOf(branches: map<Id, seq<Id>>, runs: seq<Id>): seq<Id> {
    if runs == [] then []
    else NodesOf(branches, runs[..|runs| - 1])
         + if runs[|runs| - 1] in branches then branches[runs[|runs| - 1]] else []
  }

  /** The branches that run are the root's and then, branch by branch in the order in which they run, those that start
      at the children of the last node; each of them is known before it runs. */
  ghost predicate BreadthFirst(nodes: Nodes, branches: map<Id, seq<Id>>, root: Id, runs: seq<Id>) {
    && runs == [root] + AllKids(nodes, branches, runs)
    && KnownBefore(nodes, branches, runs)
  }

  ghost predicate KnownBefore(nodes: Nodes, branches: map<Id, seq<Id>>, runs: seq<Id>) {
    forall n :: 0 <= n < |runs| ==> n <= |AllKids(nodes, branches, runs[..n])|
  }

  lemma OneMoreRun(nodes: Nodes, branches: map<Id, seq<Id>>, runs: seq<Id>, h: Id)
    ensures AllKids(nodes, branches, runs + [h]) == AllKids(nodes, branches, runs) + KidsOf(nodes, branches, h)
    ensures NodesOf(branches, runs + [h]) == NodesOf(branches, runs) + if h in branches then branches[h] else []
    ensures KnownBefore(nodes, branches, runs) && |runs| <= |AllKids(nodes, branches, runs)| ==>
              KnownBefore(nodes, branches, runs + [h])
  {
    assert (runs + [h])[..|runs|] == runs;
    forall n | 0 <= n < |runs|
      ensures (runs + [h])[..n] == runs[..n]
    {
    }
  }

  lemma {:induction false} KidsOfPrefix(nodes: Nodes, branches: map<Id, seq<Id>>, runs: seq<Id>, n: nat)
    requires n <= |runs|
    ensures AllKids(nodes, branches, runs[..n]) <= AllKids(nodes, branches, runs)
  {
    if n < |runs| {
      assert runs[..|runs| - 1][..n] == runs[..n];
      KidsOfPrefix(nodes, branches, runs[..|runs| - 1], n);
    } else {
      assert runs[..n] == runs;
    }
  }

  /** Levels of the branches known after the first `n` have run: the root's is 0, those of its children 1 and so on. */
  ghost predicate Leveled(nodes: Nodes, branches: map<Id, seq<Id>>, runs: seq<Id>, levels: seq<nat>, n: nat) {
    && n <= |runs| && |levels| == 1 + |AllKids(nodes, branches, runs[..n])| <= |runs| && levels[0] == 0
    && Ascending(levels) && (n < |levels| ==> levels[|levels| - 1] <= levels[n] + 1)
    && (forall i :: 0 < i < |levels| ==> OneBelow(nodes, branches, runs, levels, n, i))
  }

  ghost predicate Ascending(levels: seq<nat>) {
    forall i, j :: 0 <= i <= j < |levels| ==> levels[i] <= levels[j]
  }

  lemma AscendingFurther(before: seq<nat>, m: nat, kids: seq<Id>) returns (levels: seq<nat>)
    requires Ascending(before) && m < |before| && before[|before| - 1] <= before[m] + 1
    ensures |levels| == |before| + |kids| && levels[..|before|] == before && Ascending(levels)
    ensures forall i :: |before| <= i < |levels| ==> levels[i] == before[m] + 1
    ensures m + 1 < |levels| ==> levels[|levels| - 1] <= levels[m + 1] + 1
  {
    levels := before + seq(|kids|, _ => before[m] + 1);
  }

  /** Branch `i` starts at a child of one that ran before and is one level above it. */
  ghost predicate OneBelow(nodes: Nodes, branches: map<Id, seq<Id>>, runs: seq<Id>, levels: seq<nat>, n: nat, i: nat)
    requires |levels| <= |runs| && i < |levels|
  {
    exists p :: 0 <= p < n && p < i && runs[i] in KidsOf(nodes, branches, runs[p]) && levels[i] == levels[p] + 1
  }

  lemma {:induction false} NearestFirst(nodes: Nodes, branches: map<Id, seq<Id>>, root: Id, runs: seq<Id>, n: nat)
    returns (levels: seq<nat>)
    requires BreadthFirst(nodes, branches, root, runs) && n <= |runs|
    ensures Leveled(nodes, branches, runs, levels, n)
  {
    KidsOfPrefix(nodes, branches, runs, n);
    if n == 0 {
      levels := [0];
    } else {
      var m := n - 1;
      var before := NearestFirst(nodes, branches, root, runs, m);
      assert runs[..n][..m] == runs[..m];
      levels := AddLevel(nodes, branches, root, runs, before, m, n);
    }
  }

  lemma AddLevel(nodes: Nodes, branches: map<Id, seq<Id>>, root: Id, runs: seq<Id>, before: seq<nat>, m: nat, n: nat)
    returns (levels: seq<nat>)
    requires BreadthFirst(nodes, branches, root, runs) && m < |runs| && n == m + 1
    requires Leveled(nodes, branches, runs, before, m)
    requires AllKids(nodes, branches, runs[..n])
             == AllKids(nodes, branches, runs[..m]) + KidsOf(nodes, branches, runs[m])
    requires AllKids(nodes, branches, runs[..n]) <= AllKids(nodes, branches, runs)
    ensures Leveled(nodes, branches, runs, levels, n)
  {
    var kids := KidsOf(nodes, branches, runs[m]);
    assert m <= |AllKids(nodes, branches, runs[..m])|;
    levels := AscendingFurther(before, m, kids);
    assert levels[0] == before[0] && levels[m] == before[m];
    forall i | 0 < i < |levels|
      ensures OneBelow(nodes, branches, runs, levels, n, i)
    {
      if i < |before| {
        StaysBelow(nodes, branches, runs, before, levels, m, n, i);
      } else {
        KidIsBelow(nodes, branches, root, runs, levels, m, i, i - |before|);
      }
    }
  }

  lemma StaysBelow(nodes: Nodes, branches: map<Id, seq<Id>>, runs: seq<Id>, before: seq<nat>, levels: seq<nat>, m: nat,
                   n: nat, i: nat)
    requires i < |before| <= |levels| <= |runs| && m <= n && before == levels[..|before|]
    requires OneBelow(nodes, branches, runs, before, m, i)
    ensures OneBelow(nodes, branches, runs, levels, n, i)
  {
    var p :| 0 <= p < m && p < i && runs[i] in KidsOf(nodes, branches, runs[p]) && before[i] == before[p] + 1;
    assert levels[p] == before[p] && levels[i] == before[i];
  }

  lemma KidIsBelow(nodes: Nodes, branches: map<Id, seq<Id>>, root: Id, runs: seq<Id>, levels: seq<nat>, m: nat, i: nat,
                   k: nat)
    requires runs == [root] + AllKids(nodes, branches, runs) && m < i < |levels| <= |runs| && m < |runs|
    requires k < |KidsOf(nodes, branches, runs[m])| && levels[i] == levels[m] + 1
    requires AllKids(nodes, branches, runs)[i - 1] == KidsOf(nodes, branches, runs[m])[k]
    ensures OneBelow(nodes, branches, runs, levels, m + 1, i)
  {
    assert runs[i] == AllKids(nodes, branches, runs)[i - 1];
  }

  /** Branches that have run and branches that are queued, in breadth-first order. */
  ghost predicate InBreadth(nodes: Nodes, branches: map<Id, seq<Id>>, root: Id, runs: seq<Id>, queue: seq<Id>,
                            log: seq<Id>) {
    && runs + queue == [root] + AllKids(nodes, branches, runs) && KnownBefore(nodes, branches, runs)
    && log == NodesOf(branches, runs)
  }

  lemma NextInBreadth(nodes: Nodes, branches: map<Id, seq<Id>>, root: Id, runs: seq<Id>, queue: seq<Id>, log: seq<Id>)
    requires InBreadth(nodes, branches, root, runs, queue, log) && queue != [] && queue[0] in branches
    ensures InBreadth(nodes, branches, root, runs + [queue[0]], queue[1..] + KidsOf(nodes, branches, queue[0]),
                      log + branches[queue[0]])
  {
    OneMoreRun(nodes, branches, runs, queue[0]);
    MoveOver(runs, queue, KidsOf(nodes, branches, queue[0]), [root], AllKids(nodes, branches, runs));
  }

  lemma MoveOver(runs: seq<Id>, queue: seq<Id>, kids: seq<Id>, first: seq<Id>, all: seq<Id>)
    requires queue != [] && runs + queue == first + all
    ensures runs + [queue[0]] + (queue[1..] + kids) == first + (all + kids)
  {
    assert runs + [queue[0]] + (queue[1..] + kids) == runs + queue + kids;
  }

  lemma BreadthEnds(nodes: Nodes, branches: map<Id, seq<Id>>, root: Id, runs: seq<Id>, log: seq<Id>)
    requires InBreadth(nodes, branches, root, runs, [], log)
    ensures BreadthFirst(nodes, branches, root, runs) && log == NodesOf(branches, runs)
  {
    assert runs + [] == runs;
  }

  /** False where the program throws: the root starts no branch. */
  method Process(nodes: Nodes, ghost heads: set<Id>, branches: map<Id, seq<Id>>, root: Id)
    returns (ok: bool, log: seq<Id>, ghost runs: seq<Id>)
    requires Mirrored(nodes) && Acyclic(nodes) && AreBranches(nodes, heads, branches)
    ensures ok <==> root in heads
    ensures ok ==> BreadthFirst(nodes, branches, root, runs) && log == NodesOf(branches, runs)
    ensures ok ==> RunsEachWay(nodes, HeightOf(nodes), root, log)
    ensures !ok ==> log == []
  {
    ghost var height := HeightOf(nodes);
    log, runs := [], [];
    var queue := [root];
    if root in heads {
      BreadthStarts(nodes, height, heads, root);
    }
    while queue != []
      invariant root in heads ==> Breadth(nodes, height, heads, root, queue, log)
      invariant root !in heads ==> log == [] && queue == [root]
      invariant InBreadth(nodes, branches, root, runs, queue, log)
      decreases if root in heads then WaysFrom(nodes, height, queue, nodes.Keys) else 0
    {
      var id := queue[0];
      assert id in queue;
      if id !in branches {
        return false, log, runs;
      }
      NextInBreadth(nodes, branches, root, runs, queue, log);
      var branch := branches[id];
      BreadthStep(nodes, height, heads, root, queue, log, branch);
      log := ProcessBranch(branch, log);
      queue := ProcessBranch(nodes[branch[|branch| - 1]].children, queue[1..]);
      runs := runs + [id];
    }
    EmptyQueueRanAll(nodes, height, heads, root, log);
    BreadthEnds(nodes, branches, root, runs, log);
    return true, log, runs;
  }

  lemma WaysToClosing(r: Id, a: Id, b: Id, c: Id, height: map<Id, nat>)
    requires Distinct(r, a, b, c) && Falling(Diamond(r, a, b, c), height)
    ensures Ways(Diamond(r, a, b, c), height, r, {c}) == 2
  {
    var nodes := Diamond(r, a, b, c);
    assert WaysFrom(nodes, height, [c], {c}) == 1;
    assert Ways(nodes, height, a, {c}) == 1 && Ways(nodes, height, b, {c}) == 1;
    assert WaysFrom(nodes, height, [b], {c}) == 1;
    assert WaysFrom(nodes, height, [a, b], {c}) == 2 by {
      assert [a, b][1..] == [b];
    }
  }

  /** The node that closes a diamond runs twice. */
  method DiamondRunsTwice(r: Id, a: Id, b: Id, c: Id) returns (ok: bool, log: seq<Id>)
    requires Distinct(r, a, b, c)
    ensures ok && multiset(log)[c] == 2
  {
    DiamondChainsOverlap(r, a, b, c);
    ghost var runs;
    ok, log, runs := Process(Diamond(r, a, b, c), {r, a, b}, DiamondChains(r, a, b, c), r);
    WaysToClosing(r, a, b, c, HeightOf(Diamond(r, a, b, c)));
  }
}
