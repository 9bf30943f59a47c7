/**
  Walks, reachability and cycles in a finite directed graph, for the closures
  the Docker endpoint guard computes and the include graph the Compose walk
  follows.

  A set that is closed under the edges holds everything reachable from its
  members, and a graph whose nodes can be listed with every edge pointing
  backwards has no cycle. These two facts carry both uses.
*/
module Graph {
  type Node = string

  type Edges = set<(Node, Node)>

  ghost predicate IsWalk(edges: Edges, w: seq<Node>) {
    w != [] && forall i | 0 <= i < |w| - 1 :: (w[i], w[i + 1]) in edges
  }

  ghost predicate Connects(edges: Edges, w: seq<Node>, a: Node, b: Node) {
    IsWalk(edges, w) && w[0] == a && w[|w| - 1] == b
  }

  /** Some chain of zero or more edges leads from `a` to `b`. */
  ghost predicate Reaches(edges: Edges, a: Node, b: Node) {
    exists w: seq<Node> :: Connects(edges, w, a, b)
  }

  ghost predicate ReachedFrom(edges: Edges, roots: set<Node>, b: Node) {
    exists r :: r in roots && Reaches(edges, r, b)
  }

  /** A closed walk with at least one edge. */
  ghost predicate IsCycle(edges: Edges, w: seq<Node>) {
    IsWalk(edges, w) && |w| >= 2 && w[0] == w[|w| - 1]
  }

  ghost predicate Cyclic(edges: Edges) {
    exists w: seq<Node> :: IsCycle(edges, w)
  }

  lemma ReachesSelf(edges: Edges, a: Node)
    ensures Reaches(edges, a, a)
  {
    assert Connects(edges, [a], a, a);
  }

  lemma ReachesNext(edges: Edges, a: Node, b: Node, c: Node)
    requires Reaches(edges, a, b) && (b, c) in edges
    ensures Reaches(edges, a, c)
  {
    var w: seq<Node> :| Connects(edges, w, a, b);
    assert Connects(edges, w + [c], a, c);
  }

  lemma ReachesMore(edges: Edges, more: Edges, a: Node, b: Node)
    requires Reaches(edges, a, b) && edges <= more
    ensures Reaches(more, a, b)
  {
    var w: seq<Node> :| Connects(edges, w, a, b);
    assert Connects(more, w, a, b);
  }

  lemma {:induction false} WalkStaysInside(edges: Edges, w: seq<Node>, inside: set<Node>)
    requires IsWalk(edges, w) && w[0] in inside
    requires forall e | e in edges && e.0 in inside :: e.1 in inside
    ensures w[|w| - 1] in inside
    decreases |w|
  {
    if |w| > 1 {
      assert (w[0], w[1]) in edges;
      WalkStaysInside(edges, w[1..], inside);
    }
  }

  /** A set closed under the edges holds everything reachable from its members. */
  lemma ReachesInside(edges: Edges, a: Node, b: Node, inside: set<Node>)
    requires Reaches(edges, a, b) && a in inside
    requires forall e | e in edges && e.0 in inside :: e.1 in inside
    ensures b in inside
  {
    var w: seq<Node> :| Connects(edges, w, a, b);
    WalkStaysInside(edges, w, inside);
  }

  /** `order` lists every edge's source after its target. */
  ghost predicate Topological(edges: Edges, order: seq<Node>) {
    && (forall e | e in edges :: e.0 in order)
    && (forall i | 0 <= i < |order| :: TargetsBefore(edges, order, i))
  }

  ghost predicate TargetsBefore(edges: Edges, order: seq<Node>, i: nat)
    requires i < |order|
  {
    forall e | e in edges && e.0 == order[i] :: e.1 in order[..i]
  }

  lemma {:induction false} WalkDescends(edges: Edges, order: seq<Node>, w: seq<Node>, i: nat)
    requires Topological(edges, order) && IsWalk(edges, w) && |w| >= 2
    requires i < |order| && w[0] == order[i]
    ensures w[|w| - 1] in order[..i]
    decreases |w|
  {
    assert TargetsBefore(edges, order, i);
    assert (w[0], w[1]) in edges;
    if |w| > 2 {
      var j :| 0 <= j < i && order[j] == w[1];
      WalkDescends(edges, order, w[1..], j);
      assert order[..j] <= order[..i];
    }
  }

  lemma {:induction false} NoReturn(edges: Edges, order: seq<Node>, w: seq<Node>, i: nat)
    requires Topological(edges, order) && IsCycle(edges, w)
    requires i < |order| && w[0] == order[i]
    ensures false
    decreases i
  {
    WalkDescends(edges, order, w, i);
    var j :| 0 <= j < i && order[j] == w[0];
    NoReturn(edges, order, w, j);
  }

  /** A graph with a topological order has no cycle. */
  lemma TopologicalIsAcyclic(edges: Edges, order: seq<Node>)
    requires Topological(edges, order)
    ensures !Cyclic(edges)
  {
    forall w: seq<Node> ensures !IsCycle(edges, w) {
      if IsCycle(edges, w) {
        assert (w[0], w[1]) in edges;
        var i :| 0 <= i < |order| && order[i] == w[0];
        NoReturn(edges, order, w, i);
      }
    }
  }
}
