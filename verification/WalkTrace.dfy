/**
  The trace of a depth-first walk: the files being walked, the files completed,
  and the edges followed.

  A cycle is recorded exactly when the followed edges have one, because
  completion order is otherwise a topological order: a file is completed only
  after everything it leads to, unless it leads back into the open path.
*/
module WalkTrace {
  import opened Common
  import Graph

  /** `cycle` is a closed walk once one was met, empty before. */
  datatype Trace = Trace(path: seq<string>, order: seq<string>, edges: Graph.Edges, cycle: seq<string>)

  function Elements(s: seq<string>): set<string> {
    set x | x in s
  }

  /** Edges of a file still being walked lead to completed files, or to the one being walked next. */
  ghost predicate OpenTargets(t: Trace, k: nat)
    requires k < |t.path|
  {
    forall e | e in t.edges && e.0 == t.path[k] :: e.1 in t.order || (k + 1 < |t.path| && e.1 == t.path[k + 1])
  }

  ghost predicate Wf(t: Trace) {
    && IsDistinct(t.path) && IsDistinct(t.order)
    && (forall x | x in t.path :: x !in t.order)
    && (forall e | e in t.edges :: e.0 in t.path || e.0 in t.order)
    && (forall k | 0 <= k < |t.path| - 1 :: (t.path[k], t.path[k + 1]) in t.edges)
    && (t.cycle != [] ==> Graph.IsCycle(t.edges, t.cycle))
    && (t.cycle == [] ==> forall i | 0 <= i < |t.order| :: Graph.TargetsBefore(t.edges, t.order, i))
    && (t.cycle == [] ==> forall k | 0 <= k < |t.path| :: OpenTargets(t, k))
  }

  function Top(t: Trace): string
    requires t.path != []
  {
    t.path[|t.path| - 1]
  }

  /** The edge from the file being walked; a top-level file has none. */
  function EdgeTo(t: Trace, c: string): Graph.Edges {
    if t.path == [] then {} else {(Top(t), c)}
  }

  function Push(t: Trace, c: string): Trace {
    t.(path := t.path + [c], edges := t.edges + EdgeTo(t, c))
  }

  function Revisit(t: Trace, c: string): Trace {
    t.(edges := t.edges + EdgeTo(t, c))
  }

  ghost function Close(t: Trace, c: string): Trace
    requires c in t.path
  {
    var i :| 0 <= i < |t.path| && t.path[i] == c;
    t.(edges := t.edges + EdgeTo(t, c), cycle := if t.cycle == [] then t.path[i..] + [c] else t.cycle)
  }

  function Pop(t: Trace): Trace
    requires t.path != []
  {
    t.(path := t.path[..|t.path| - 1], order := t.order + [Top(t)])
  }

  lemma PushWf(t: Trace, c: string)
    requires Wf(t) && c !in t.path && c !in t.order
    ensures Wf(Push(t, c))
  {
    var u := Push(t, c);
    if u.cycle == [] {
      forall i | 0 <= i < |u.order| ensures Graph.TargetsBefore(u.edges, u.order, i) {
        assert Graph.TargetsBefore(t.edges, t.order, i);
        assert u.order[i] in t.order;
      }
      forall k | 0 <= k < |u.path| ensures OpenTargets(u, k) {
        if k < |t.path| {
          assert OpenTargets(t, k);
          assert u.path[k] == t.path[k];
        }
      }
    }
  }

  lemma RevisitWf(t: Trace, c: string)
    requires Wf(t) && c in t.order
    ensures Wf(Revisit(t, c))
  {
    var u := Revisit(t, c);
    if u.cycle == [] {
      forall i | 0 <= i < |u.order| ensures Graph.TargetsBefore(u.edges, u.order, i) {
        assert Graph.TargetsBefore(t.edges, t.order, i);
        assert u.order[i] in t.order;
      }
      forall k | 0 <= k < |u.path| ensures OpenTargets(u, k) {
        assert OpenTargets(t, k);
      }
    }
  }

  /** Going back from the top of the path to one of its files closes a cycle. */
  lemma PathCloses(edges: Graph.Edges, path: seq<string>, i: nat)
    requires i < |path| && (forall k | 0 <= k < |path| - 1 :: (path[k], path[k + 1]) in edges)
    requires (path[|path| - 1], path[i]) in edges
    ensures Graph.IsCycle(edges, path[i..] + [path[i]])
  {
    var w := path[i..] + [path[i]];
    forall k | 0 <= k < |w| - 1 ensures (w[k], w[k + 1]) in edges {
      assert w[k] == path[i + k];
      assert w[k + 1] == if i + k + 1 < |path| then path[i + k + 1] else path[i];
    }
  }

  /** The closed trace: one more edge, and a cycle through the file that was met again. */
  lemma ClosedIs(t: Trace, c: string) returns (i: nat)
    requires c in t.path
    ensures i < |t.path| && t.path[i] == c
    ensures Close(t, c) ==
      t.(edges := t.edges + {(Top(t), c)}, cycle := if t.cycle == [] then t.path[i..] + [c] else t.cycle)
  {
    var u := Close(t, c);
    i :| 0 <= i < |t.path| && t.path[i] == c && u.cycle == if t.cycle == [] then t.path[i..] + [c] else t.cycle;
  }

  lemma ClosedWf(t: Trace, c: string, cycle: seq<string>)
    requires Wf(t) && c in t.path && Graph.IsCycle(t.edges + {(Top(t), c)}, cycle)
    ensures Wf(t.(edges := t.edges + {(Top(t), c)}, cycle := cycle))
  {
    assert t.path[|t.path| - 1] in t.path;
  }

  lemma CloseWf(t: Trace, c: string)
    requires Wf(t) && c in t.path
    ensures Wf(Close(t, c)) && Close(t, c).cycle != []
    ensures exists w: seq<string> :: Graph.IsCycle(Close(t, c).edges, w) && w[0] == c
  {
    var i := ClosedIs(t, c);
    var edges, w := t.edges + {(Top(t), c)}, t.path[i..] + [c];
    PathCloses(edges, t.path, i);
    ClosedWf(t, c, if t.cycle == [] then w else t.cycle);
    assert Graph.IsCycle(edges, w) && w[0] == c;
  }

  lemma PopWf(t: Trace)
    requires Wf(t) && t.path != []
    ensures Wf(Pop(t))
  {
    var u := Pop(t);
    var last := |t.path| - 1;
    assert t.path[last] in t.path;
    if u.cycle == [] {
      forall i | 0 <= i < |u.order| ensures Graph.TargetsBefore(u.edges, u.order, i) {
        if i < |t.order| {
          assert Graph.TargetsBefore(t.edges, t.order, i);
          assert u.order[..i] == t.order[..i];
        } else {
          assert OpenTargets(t, last);
          assert u.order[..i] == t.order;
        }
      }
      forall k | 0 <= k < |u.path| ensures OpenTargets(u, k) {
        assert OpenTargets(t, k);
      }
    }
  }

  /** At the end of a walk, a cycle was met exactly when the followed edges are cyclic. */
  lemma CycleExact(t: Trace)
    requires Wf(t) && t.path == []
    ensures t.cycle != [] <==> Graph.Cyclic(t.edges)
  {
    if t.cycle == [] { Graph.TopologicalIsAcyclic(t.edges, t.order); }
  }

  lemma PathElements(t: Trace, c: string)
    ensures Elements(Push(t, c).path) == Elements(t.path) + {c}
    ensures Elements(Revisit(t, c).path) == Elements(t.path)
    ensures t.path != [] && IsDistinct(t.path) ==> Elements(Pop(t).path) == Elements(t.path) - {Top(t)}
    ensures t.path != [] ==> Elements(Pop(t).order) == Elements(t.order) + {Top(t)}
  {
    if t.path != [] {
      assert t.path == Pop(t).path + [Top(t)];
    }
  }
}
