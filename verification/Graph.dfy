/** The pipeline's graph: nodes with mirrored parent and child lists, and an adjacency map. */
module Graph {
  datatype Id = Id(name: string)

  datatype Node = Node(parents: seq<Id>, children: seq<Id>)

  type Nodes = map<Id, Node>

  ghost predicate NoRepeat(s: seq<Id>) {
    forall i, j :: 0 <= i < j < |s| ==> s[i] != s[j]
  }

  /** Child and parent lists mirror each other, name existing nodes once each and never the node itself. */
  ghost predicate Mirrored(nodes: Nodes) {
    && (forall a :: a in nodes ==> NoRepeat(nodes[a].children) && NoRepeat(nodes[a].parents))
    && (forall a, b {:trigger b in nodes[a].children} ::
          a in nodes && b in nodes[a].children ==> b in nodes && b != a && a in nodes[b].parents)
    && (forall a, b {:trigger a in nodes[b].parents} ::
          b in nodes && a in nodes[b].parents ==> a in nodes && a != b && b in nodes[a].children)
  }

  /** The adjacency map says the same as the child lists. */
  ghost predicate AdjacencyAgrees(nodes: Nodes, adj: map<Id, set<Id>>) {
    && adj.Keys <= nodes.Keys
    && forall a :: a in nodes ==> (set b | b in nodes[a].children) == if a in adj then adj[a] else {}
  }

  class BaseGraph {
    var nodes: Nodes
    var adjMat: map<Id, set<Id>>

    ghost predicate Valid()
      reads this
    {
      Mirrored(nodes) && AdjacencyAgrees(nodes, adjMat)
    }

    constructor ()
      ensures Valid() && nodes == map[]
    {
      nodes, adjMat := map[], map[];
    }

    /** False where the program throws; then nothing has changed. */
    method AddNode(id: Id) returns (ok: bool)
      requires Valid()
      modifies this
      ensures Valid() && ok == (id !in old(nodes))
      ensures nodes == if ok then old(nodes)[id := Node([], [])] else old(nodes)
      ensures adjMat == old(adjMat)
    {
      if id in nodes {
        return false;
      }
      nodes := nodes[id := Node([], [])];
      return true;
    }

    method AddEdge(from: Id, to: Id) returns (ok: bool)
      requires Valid()
      modifies this
      ensures Valid()
      ensures ok == (from != to && from in old(nodes) && to in old(nodes) && to !in old(nodes[from].children))
      ensures nodes == if ok then Linked(old(nodes), from, to) else old(nodes)
      ensures ok ==> from in nodes && nodes[from].children == old(nodes[from].children) + [to]
      ensures ok ==> to in nodes && nodes[to].parents == old(nodes[to].parents) + [from]
      ensures ok ==> forall a :: a in old(nodes) ==>
                a in nodes && (a != from ==> nodes[a].children == old(nodes)[a].children)
                && (a != to ==> nodes[a].parents == old(nodes)[a].parents)
      ensures adjMat == if ok then old(adjMat)[from := (if from in old(adjMat) then old(adjMat[from]) else {}) + {to}]
                        else old(adjMat)
    {
      if from == to || from !in nodes || to !in nodes || to in nodes[from].children || from in nodes[to].parents {
        return false;
      }
      LinkKeepsMirror(nodes, from, to);
      LinkKeepsAdjacency(nodes, adjMat, from, to);
      nodes := nodes[from := nodes[from].(children := nodes[from].children + [to])];
      nodes := nodes[to := nodes[to].(parents := nodes[to].parents + [from])];
      adjMat := adjMat[from := (if from in adjMat then adjMat[from] else {}) + {to}];
      return true;
    }
  }

  function Linked(nodes: Nodes, from: Id, to: Id): Nodes
    requires from in nodes && to in nodes && from != to
  {
    nodes[from := nodes[from].(children := nodes[from].children + [to])]
         [to := nodes[to].(parents := nodes[to].parents + [from])]
  }

  lemma LinkKeepsMirror(nodes: Nodes, from: Id, to: Id)
    requires Mirrored(nodes) && from in nodes && to in nodes && from != to && to !in nodes[from].children
    ensures Mirrored(Linked(nodes, from, to))
  {
    var r := Linked(nodes, from, to);
    assert from !in nodes[to].parents;
    forall a | a in r
      ensures NoRepeat(r[a].children) && NoRepeat(r[a].parents)
    {
      assert forall i :: 0 <= i < |nodes[a].children| ==> nodes[a].children[i] in nodes[a].children;
      assert forall i :: 0 <= i < |nodes[a].parents| ==> nodes[a].parents[i] in nodes[a].parents;
    }
    forall a, b | a in r && b in r
      ensures b in r[a].children <==> b in nodes[a].children || (a == from && b == to)
      ensures a in r[b].parents <==> a in nodes[b].parents || (a == from && b == to)
    {
    }
    forall a, b | a in r && b in r[a].children
      ensures b in r && b != a && a in r[b].parents
    {
      assert b in nodes[a].children || (a == from && b == to);
    }
    forall a, b | a in r && b in r[a].parents
      ensures b in r && b != a && a in r[b].children
    {
      assert b in nodes[a].parents || (b == from && a == to);
    }
  }

  lemma LinkKeepsAdjacency(nodes: Nodes, adj: map<Id, set<Id>>, from: Id, to: Id)
    requires AdjacencyAgrees(nodes, adj) && from in nodes && to in nodes && from != to
    ensures AdjacencyAgrees(Linked(nodes, from, to), adj[from := (if from in adj then adj[from] else {}) + {to}])
  {
    var r := Linked(nodes, from, to);
    var adj' := adj[from := (if from in adj then adj[from] else {}) + {to}];
    forall a | a in r
      ensures (set b | b in r[a].children) == if a in adj' then adj'[a] else {}
    {
      assert forall b :: b in r[a].children <==> b in nodes[a].children || (a == from && b == to);
      assert forall b :: b in (set c | c in nodes[a].children) <==> b in nodes[a].children;
    }
  }
}
