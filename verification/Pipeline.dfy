/** Decomposition of the processing graph into chains, and its synchronous run. */
module Pipeline {
  import opened Graph

  // ---------------------------------------------------------------- acyclic graphs

  /** A numbering in which every edge leads upwards. */
  ghost predicate Ranked(nodes: Nodes, rank: map<Id, nat>) {
    && rank.Keys == nodes.Keys
    && forall a, b :: a in nodes && b in nodes[a].children && b in nodes ==> rank[a] < rank[b]
  }

  ghost predicate Acyclic(nodes: Nodes) {
    exists rank :: Ranked(nodes, rank)
  }

  ghost predicate AtMostOneParent(nodes: Nodes) {
    forall a :: a in nodes ==> |nodes[a].parents| <= 1
  }

  lemma {:induction false} RankBound(rank: map<Id, nat>) returns (top: nat)
    ensures forall a :: a in rank ==> rank[a] <= top
  {
    if |rank| == 0 {
      top := 0;
    } else {
      var a :| a in rank;
      var rest := rank - {a};
      assert |rest| < |rank|;
      var t := RankBound(rest);
      top := if rank[a] > t then rank[a] else t;
      assert forall b :: b in rank ==> b == a || b in rest;
    }
  }

  // ---------------------------------------------------------------- branches

  /** Nodes that start a chain: those without parents and the children of branching nodes. */
  ghost predicate IsHead(nodes: Nodes, id: Id)
    requires id in nodes
  {
    || nodes[id].parents == []
    || exists p :: p in nodes && |nodes[p].children| > 1 && id in nodes[p].children
  }

  ghost predicate AreHeads(nodes: Nodes, heads: set<Id>) {
    && heads <= nodes.Keys
    && forall id {:trigger id in heads} {:trigger IsHead(nodes, id)} :: id in nodes ==>
         (id in heads <==> IsHead(nodes, id))
  }

  /** `b` is the first child of `a` and starts no chain of its own. */
  ghost predicate Follows(nodes: Nodes, heads: set<Id>, a: Id, b: Id) {
    a in nodes && nodes[a].children != [] && b == nodes[a].children[0] && b !in heads
  }

  /** Each node is the first child of the one before. */
  ghost predicate IsLink(nodes: Nodes, heads: set<Id>, c: seq<Id>, head: Id) {
    && |c| >= 1 && c[0] == head
    && (forall k :: 0 <= k < |c| ==> c[k] in nodes)
    && (forall j, k :: 0 <= j < k < |c| && k == j + 1 ==> Follows(nodes, heads, c[j], c[k]))
  }

  /** A chain follows first children until the next one starts another chain. */
  ghost predicate IsChain(nodes: Nodes, heads: set<Id>, c: seq<Id>, head: Id) {
    && IsLink(nodes, heads, c, head)
    && (nodes[c[|c| - 1]].children == [] || nodes[c[|c| - 1]].children[0] in heads)
  }

  ghost predicate AreBranches(nodes: Nodes, heads: set<Id>, branches: map<Id, seq<Id>>) {
    && AreHeads(nodes, heads) && branches.Keys == heads
    && forall h {:trigger branches[h]} :: h in heads ==> IsChain(nodes, heads, branches[h], h)
  }

  /** The only child of the parent of a node that is not a head is that node. */
  lemma OnlyChild(nodes: Nodes, heads: set<Id>, p: Id, v: Id)
    requires Mirrored(nodes) && AreHeads(nodes, heads) && v in nodes && v !in heads && p in nodes[v].parents
    ensures p in nodes && nodes[p].children == [v]
  {
    assert v in nodes[p].children;
    assert |nodes[p].children| <= 1;
  }

  lemma NextInChain(nodes: Nodes, heads: set<Id>, c: seq<Id>, h: Id, k: int, v: Id)
    requires Mirrored(nodes) && AreHeads(nodes, heads) && IsChain(nodes, heads, c, h) && 0 <= k < |c|
    requires v in nodes && v !in heads && c[k] in nodes[v].parents
    ensures k + 1 < |c| && c[k + 1] == v
  {
    OnlyChild(nodes, heads, c[k], v);
    if k + 1 < |c| {
      assert Follows(nodes, heads, c[k], c[k + 1]);
    }
  }

  lemma PreviousInChain(nodes: Nodes, heads: set<Id>, c: seq<Id>, h: Id, k: int)
    requires Mirrored(nodes) && IsChain(nodes, heads, c, h) && 1 <= k < |c|
    ensures c[k - 1] in nodes[c[k]].parents
  {
    assert Follows(nodes, heads, c[k - 1], c[k]);
    assert c[k] in nodes[c[k - 1]].children;
  }

  lemma {:induction false} ChainClimbs(nodes: Nodes, heads: set<Id>, rank: map<Id, nat>, c: seq<Id>, h: Id, i: int,
                                       j: int)
    requires Ranked(nodes, rank) && IsChain(nodes, heads, c, h) && 0 <= i < j < |c|
    ensures rank[c[i]] < rank[c[j]]
    decreases j
  {
    assert Follows(nodes, heads, c[j - 1], c[j]);
    assert c[j] in nodes[c[j - 1]].children;
    if i < j - 1 {
      ChainClimbs(nodes, heads, rank, c, h, i, j - 1);
    }
  }

  // ---------------------------------------------------------------- covering and partition

  /** Every node of an acyclic graph is on some chain. */
  lemma {:induction false} NodeOnChain(nodes: Nodes, heads: set<Id>, branches: map<Id, seq<Id>>, rank: map<Id, nat>,
                                       v: Id)
    returns (h: Id, k: int)
    requires Mirrored(nodes) && Ranked(nodes, rank) && AreBranches(nodes, heads, branches) && v in nodes
    ensures h in heads && 0 <= k < |branches[h]| && branches[h][k] == v
    decreases rank[v]
  {
    if v in heads {
      h, k := v, 0;
    } else {
      var p := nodes[v].parents[0];
      OnlyChild(nodes, heads, p, v);
      h, k := NodeOnChain(nodes, heads, branches, rank, p);
      NextInChain(nodes, heads, branches[h], h, k, v);
      k := k + 1;
    }
  }

  /** Node `v` stands at position `i` of the chain of `h`. */
  ghost predicate OnChain(branches: map<Id, seq<Id>>, h: Id, i: int, v: Id) {
    h in branches && 0 <= i < |branches[h]| && branches[h][i] == v
  }

  ghost predicate Disjoint(branches: map<Id, seq<Id>>) {
    forall v, g, i, h, j :: OnChain(branches, g, i, v) && OnChain(branches, h, j, v) ==> g == h && i == j
  }

  ghost predicate EnteredOnce(nodes: Nodes, v: Id) {
    v in nodes && |nodes[v].parents| == 1
  }

  /** Nodes inside chains have one way in. */
  ghost predicate OneWayIn(nodes: Nodes, heads: set<Id>) {
    forall v {:trigger EnteredOnce(nodes, v)} :: v in nodes && v !in heads ==> EnteredOnce(nodes, v)
  }

  ghost predicate Covered(branches: map<Id, seq<Id>>, v: Id) {
    exists h, k :: OnChain(branches, h, k, v)
  }

  /** Every node is on a chain. */
  ghost predicate AllCovered(nodes: Nodes, branches: map<Id, seq<Id>>) {
    forall v {:trigger Covered(branches, v)} :: v in nodes ==> Covered(branches, v)
  }

  lemma InsideIsNoHead(nodes: Nodes, heads: set<Id>, branches: map<Id, seq<Id>>, h: Id, i: int, v: Id)
    requires AreBranches(nodes, heads, branches) && OnChain(branches, h, i, v)
    ensures v in nodes && h in heads && (v in heads <==> i == 0)
    ensures i == 0 ==> v == h
  {
    if i > 0 {
      assert Follows(nodes, heads, branches[h][i - 1], branches[h][i]);
    }
  }

  lemma {:induction false} SamePlace(nodes: Nodes, heads: set<Id>, branches: map<Id, seq<Id>>, g: Id, i: int, h: Id,
                                     j: int, v: Id)
    requires Mirrored(nodes) && AreBranches(nodes, heads, branches) && OneWayIn(nodes, heads)
    requires OnChain(branches, g, i, v) && OnChain(branches, h, j, v)
    ensures g == h && i == j
    decreases i
  {
    InsideIsNoHead(nodes, heads, branches, g, i, v);
    InsideIsNoHead(nodes, heads, branches, h, j, v);
    if i > 0 {
      assert EnteredOnce(nodes, v);
      PreviousInChain(nodes, heads, branches[g], g, i);
      PreviousInChain(nodes, heads, branches[h], h, j);
      assert branches[g][i - 1] == nodes[v].parents[0] == branches[h][j - 1];
      SamePlace(nodes, heads, branches, g, i - 1, h, j - 1, nodes[v].parents[0]);
    }
  }

  /** The chains of an acyclic graph cover its nodes; they partition them exactly when no node
      inside a chain has a second parent. */
  lemma ChainsPartitionIff(nodes: Nodes, heads: set<Id>, branches: map<Id, seq<Id>>)
    requires Mirrored(nodes) && Acyclic(nodes) && AreBranches(nodes, heads, branches)
    ensures AllCovered(nodes, branches)
    ensures Disjoint(branches) <==> OneWayIn(nodes, heads)
  {
    ChainsCover(nodes, heads, branches);
    if OneWayIn(nodes, heads) {
      OneWayInIsDisjoint(nodes, heads, branches);
    }
    if Disjoint(branches) {
      DisjointIsOneWayIn(nodes, heads, branches);
    }
  }

  lemma ChainsCover(nodes: Nodes, heads: set<Id>, branches: map<Id, seq<Id>>)
    requires Mirrored(nodes) && Acyclic(nodes) && AreBranches(nodes, heads, branches)
    ensures AllCovered(nodes, branches)
  {
    var rank :| Ranked(nodes, rank);
    forall v | v in nodes
      ensures Covered(branches, v)
    {
      var h, k := NodeOnChain(nodes, heads, branches, rank, v);
      assert OnChain(branches, h, k, v);
    }
  }

  lemma OneWayInIsDisjoint(nodes: Nodes, heads: set<Id>, branches: map<Id, seq<Id>>)
    requires Mirrored(nodes) && AreBranches(nodes, heads, branches) && OneWayIn(nodes, heads)
    ensures Disjoint(branches)
  {
    forall v, g, i, h, j | OnChain(branches, g, i, v) && OnChain(branches, h, j, v)
      ensures g == h && i == j
    {
      SamePlace(nodes, heads, branches, g, i, h, j, v);
    }
  }

  lemma DisjointIsOneWayIn(nodes: Nodes, heads: set<Id>, branches: map<Id, seq<Id>>)
    requires Mirrored(nodes) && Acyclic(nodes) && AreBranches(nodes, heads, branches) && Disjoint(branches)
    ensures OneWayIn(nodes, heads)
  {
    var rank :| Ranked(nodes, rank);
    forall v | v in nodes && v !in heads
      ensures EnteredOnce(nodes, v)
    {
      SingleParent(nodes, heads, branches, rank, v);
    }
  }

  lemma AllSame(s: seq<Id>)
    requires NoRepeat(s) && forall a :: 0 <= a < |s| ==> s[a] == s[0]
    ensures |s| <= 1
  {
    var last := |s| - 1;
    assert last > 0 ==> s[0] != s[last];
  }

  lemma SingleParent(nodes: Nodes, heads: set<Id>, branches: map<Id, seq<Id>>, rank: map<Id, nat>, v: Id)
    requires Mirrored(nodes) && Ranked(nodes, rank) && AreBranches(nodes, heads, branches) && Disjoint(branches)
    requires v in nodes && v !in heads
    ensures |nodes[v].parents| == 1
  {
    assert nodes[v].parents != [];
    forall a | 0 <= a < |nodes[v].parents|
      ensures nodes[v].parents[a] == nodes[v].parents[0]
    {
      var p, q := nodes[v].parents[0], nodes[v].parents[a];
      assert p in nodes[v].parents && q in nodes[v].parents;
      var g, i := NodeOnChain(nodes, heads, branches, rank, p);
      var h, j := NodeOnChain(nodes, heads, branches, rank, q);
      NextInChain(nodes, heads, branches[g], g, i, v);
      NextInChain(nodes, heads, branches[h], h, j, v);
      assert OnChain(branches, g, i + 1, v) && OnChain(branches, h, j + 1, v);
    }
    AllSame(nodes[v].parents);
  }

  /** With at most one parent per node the chains partition the nodes. */
  lemma ChainsPartition(nodes: Nodes, heads: set<Id>, branches: map<Id, seq<Id>>)
    requires Mirrored(nodes) && Acyclic(nodes) && AreBranches(nodes, heads, branches) && AtMostOneParent(nodes)
    ensures AllCovered(nodes, branches)
    ensures Disjoint(branches)
  {
    ChainsPartitionIff(nodes, heads, branches);
  }

  /** The children of the last node of a chain all start chains. */
  lemma LastChildrenAreHeads(nodes: Nodes, heads: set<Id>, c: seq<Id>, h: Id, v: Id)
    requires Mirrored(nodes) && AreHeads(nodes, heads) && IsChain(nodes, heads, c, h)
    requires v in nodes[c[|c| - 1]].children
    ensures v in heads
  {
    var last := c[|c| - 1];
    if |nodes[last].children| > 1 {
      assert IsHead(nodes, v);
    } else {
      assert nodes[last].children == [v];
    }
  }

  // ---------------------------------------------------------------- building the branches

  method NodesWithoutParents(nodes: Nodes) returns (r: seq<Id>)
    ensures forall id :: id in r <==> id in nodes && nodes[id].parents == []
  {
    r := [];
    var todo := nodes.Keys;
    while todo != {}
      invariant todo <= nodes.Keys
      invariant forall id :: id in r <==> id in nodes && id !in todo && nodes[id].parents == []
      decreases todo
    {
      var id :| id in todo;
      todo := todo - {id};
      if |nodes[id].parents| == 0 {
        r := r + [id];
      }
    }
  }

  /** Nodes with more than one child (get_nodes_with_children). */
  method BranchingNodes(nodes: Nodes) returns (r: seq<Id>)
    ensures forall id :: id in r <==> id in nodes && |nodes[id].children| > 1
  {
    r := [];
    var todo := nodes.Keys;
    while todo != {}
      invariant todo <= nodes.Keys
      invariant forall id :: id in r <==> id in nodes && id !in todo && |nodes[id].children| > 1
      decreases todo
    {
      var id :| id in todo;
      todo := todo - {id};
      if |nodes[id].children| > 1 {
        r := r + [id];
      }
    }
  }

  method BranchIds(nodes: Nodes) returns (heads: set<Id>)
    requires Mirrored(nodes)
    ensures AreHeads(nodes, heads)
  {
    var roots := NodesWithoutParents(nodes);
    var forks := BranchingNodes(nodes);
    heads := {};
    for i := 0 to |roots|
      invariant forall id :: id in heads <==> id in roots[..i]
    {
      assert roots[..i + 1] == roots[..i] + [roots[i]];
      heads := heads + {roots[i]};
    }
    assert roots[..|roots|] == roots;
    for i := 0 to |forks|
      invariant forall id :: id in heads <==> id in roots || exists k :: 0 <= k < i && id in nodes[forks[k]].children
    {
      assert forks[i] in forks;
      ghost var before := heads;
      var kids := nodes[forks[i]].children;
      for j := 0 to |kids|
        invariant forall id :: id in heads <==> id in before || id in kids[..j]
      {
        assert kids[..j + 1] == kids[..j] + [kids[j]];
        heads := heads + {kids[j]};
      }
      assert kids[..|kids|] == kids;
    }
    forall id | id in nodes
      ensures id in heads <==> IsHead(nodes, id)
    {
      if IsHead(nodes, id) && nodes[id].parents != [] {
        var p :| p in nodes && |nodes[p].children| > 1 && id in nodes[p].children;
        assert p in forks;
        var k :| 0 <= k < |forks| && forks[k] == p;
      }
      if id in heads && id !in roots {
        var k :| 0 <= k < |forks| && id in nodes[forks[k]].children;
        assert forks[k] in forks;
      }
    }
    forall id | id in heads
      ensures id in nodes
    {
      if id !in roots {
        var k :| 0 <= k < |forks| && id in nodes[forks[k]].children;
        assert forks[k] in forks;
      }
    }
  }

  /** Walks from a head along first children until the next head or the end. */
  method WalkChain(nodes: Nodes, heads: set<Id>, head: Id) returns (c: seq<Id>)
    requires Mirrored(nodes) && Acyclic(nodes) && AreHeads(nodes, heads) && head in heads
    ensures IsChain(nodes, heads, c, head)
  {
    ghost var rank :| Ranked(nodes, rank);
    ghost var top := RankBound(rank);
    c := [head];
    if nodes[head].children == [] {
      return;
    }
    FirstChildClimbs(nodes, rank, head);
    var processed := nodes[head].children[0];
    while processed !in heads
      invariant IsLink(nodes, heads, c, head)
      invariant nodes[c[|c| - 1]].children != [] && nodes[c[|c| - 1]].children[0] == processed && processed in nodes
      decreases top - rank[processed]
    {
      ExtendLink(nodes, heads, c, head, processed);
      c := c + [processed];
      if nodes[processed].children == [] {
        break;
      }
      FirstChildClimbs(nodes, rank, processed);
      processed := nodes[processed].children[0];
    }
  }

  lemma FirstChildClimbs(nodes: Nodes, rank: map<Id, nat>, v: Id)
    requires Mirrored(nodes) && Ranked(nodes, rank) && v in nodes && nodes[v].children != []
    ensures nodes[v].children[0] in nodes && rank[v] < rank[nodes[v].children[0]]
  {
    assert nodes[v].children[0] in nodes[v].children;
  }

  lemma ExtendLink(nodes: Nodes, heads: set<Id>, c: seq<Id>, head: Id, v: Id)
    requires IsLink(nodes, heads, c, head) && v in nodes && Follows(nodes, heads, c[|c| - 1], v)
    ensures IsLink(nodes, heads, c + [v], head)
  {
  }

  /** init_branches: one chain for every head. */
  method InitBranches(nodes: Nodes) returns (heads: set<Id>, branches: map<Id, seq<Id>>)
    requires Mirrored(nodes) && Acyclic(nodes)
    ensures AreBranches(nodes, heads, branches)
  {
    heads := BranchIds(nodes);
    branches := map[];
    var todo := heads;
    while todo != {}
      invariant todo <= heads && branches.Keys == heads - todo
      invariant forall h {:trigger branches[h]} :: h in branches ==> IsChain(nodes, heads, branches[h], h)
      decreases todo
    {
      var h :| h in todo;
      var c := WalkChain(nodes, heads, h);
      branches := branches[h := c];
      todo := todo - {h};
    }
  }

  // ---------------------------------------------------------------- overlapping chains

  /** A root with two children that share their only child. */
  function Diamond(r: Id, a: Id, b: Id, c: Id): Nodes {
    map[r := Node([], [a, b]), a := Node([r], [c]), b := Node([r], [c]), c := Node([a, b], [])]
  }

  ghost predicate Distinct(r: Id, a: Id, b: Id, c: Id) {
    r != a && r != b && r != c && a != b && a != c && b != c
  }

  function DiamondChains(r: Id, a: Id, b: Id, c: Id): map<Id, seq<Id>> {
    map[r := [r], a := [a, c], b := [b, c]]
  }

  ghost predicate DiamondEdge(r: Id, a: Id, b: Id, c: Id, x: Id, y: Id) {
    (x == r && (y == a || y == b)) || ((x == a || x == b) && y == c)
  }

  lemma DiamondChildren(r: Id, a: Id, b: Id, c: Id, x: Id)
    requires Distinct(r, a, b, c) && x in Diamond(r, a, b, c)
    ensures x in {r, a, b, c}
    ensures NoRepeat(Diamond(r, a, b, c)[x].children) && NoRepeat(Diamond(r, a, b, c)[x].parents)
    ensures forall y :: y in Diamond(r, a, b, c)[x].children <==> DiamondEdge(r, a, b, c, x, y)
    ensures forall y :: y in Diamond(r, a, b, c)[x].parents <==> DiamondEdge(r, a, b, c, y, x)
  {
    var node := Diamond(r, a, b, c)[x];
    if x == r {
      assert node == Node([], [a, b]);
    } else if x == c {
      assert node == Node([a, b], []);
    } else {
      assert node == Node([r], [c]);
    }
  }

  lemma DiamondIsGraph(r: Id, a: Id, b: Id, c: Id)
    requires Distinct(r, a, b, c)
    ensures Mirrored(Diamond(r, a, b, c)) && Acyclic(Diamond(r, a, b, c))
  {
    var nodes := Diamond(r, a, b, c);
    var rank: map<Id, nat> := map[r := 0, a := 1, b := 1, c := 2];
    forall x | x in nodes
      ensures NoRepeat(nodes[x].children) && NoRepeat(nodes[x].parents)
    {
      DiamondChildren(r, a, b, c, x);
    }
    forall x, y | x in nodes && y in nodes[x].children
      ensures y in nodes && y != x && x in nodes[y].parents && rank[x] < rank[y]
    {
      DiamondChildren(r, a, b, c, x);
      DiamondChildren(r, a, b, c, y);
    }
    forall x, y | y in nodes && x in nodes[y].parents
      ensures x in nodes && x != y && y in nodes[x].children
    {
      DiamondChildren(r, a, b, c, y);
      DiamondChildren(r, a, b, c, x);
    }
    assert Ranked(nodes, rank);
  }

  lemma DiamondHeads(r: Id, a: Id, b: Id, c: Id)
    requires Distinct(r, a, b, c)
    ensures AreHeads(Diamond(r, a, b, c), {r, a, b})
  {
    var nodes := Diamond(r, a, b, c);
    assert |nodes[r].children| > 1 && a in nodes[r].children && b in nodes[r].children;
    forall x | x in nodes
      ensures x in {r, a, b} <==> IsHead(nodes, x)
    {
      DiamondChildren(r, a, b, c, x);
      if p :| x == c && p in nodes && |nodes[p].children| > 1 && x in nodes[p].children {
        DiamondChildren(r, a, b, c, p);
        assert false;
      }
    }
  }

  lemma DiamondLink(r: Id, a: Id, b: Id, c: Id, x: Id)
    requires Distinct(r, a, b, c) && (x == a || x == b)
    ensures IsChain(Diamond(r, a, b, c), {r, a, b}, [x, c], x)
  {
    var nodes := Diamond(r, a, b, c);
    assert nodes[x].children == [c] && nodes[c].children == [];
  }

  lemma DiamondBranches(r: Id, a: Id, b: Id, c: Id)
    requires Distinct(r, a, b, c)
    ensures AreBranches(Diamond(r, a, b, c), {r, a, b}, DiamondChains(r, a, b, c))
  {
    DiamondHeads(r, a, b, c);
    DiamondLink(r, a, b, c, a);
    DiamondLink(r, a, b, c, b);
    assert Diamond(r, a, b, c)[r].children[0] == a;
  }

  /** The diamond is an acyclic graph whose chains overlap in its last node. */
  lemma DiamondChainsOverlap(r: Id, a: Id, b: Id, c: Id)
    requires Distinct(r, a, b, c)
    ensures Mirrored(Diamond(r, a, b, c)) && Acyclic(Diamond(r, a, b, c))
    ensures AreBranches(Diamond(r, a, b, c), {r, a, b}, DiamondChains(r, a, b, c))
    ensures !Disjoint(DiamondChains(r, a, b, c))
  {
    DiamondIsGraph(r, a, b, c);
    DiamondBranches(r, a, b, c);
    assert OnChain(DiamondChains(r, a, b, c), a, 1, c) && OnChain(DiamondChains(r, a, b, c), b, 1, c);
  }
}
