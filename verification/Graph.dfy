/** Finite directed graphs given by their edge sets: paths, reachability and cycles. */
module Graph {

  type Edges = set<(int, int)>

  ghost predicate IsPath(edges: Edges, p: seq<int>) {
    p != [] && forall i :: 0 <= i < |p| - 1 ==> (p[i], p[i + 1]) in edges
  }

  ghost predicate PathFromTo(edges: Edges, p: seq<int>, a: int, b: int) {
    IsPath(edges, p) && p[0] == a && p[|p| - 1] == b
  }

  /** b can be reached from a along zero or more edges. */
  ghost predicate Reach(edges: Edges, a: int, b: int) {
    exists p :: PathFromTo(edges, p, a, b)
  }

  /** No closed walk of length one or more; in particular no self-loop. */
  ghost predicate Acyclic(edges: Edges) {
    forall p :: IsPath(edges, p) && |p| >= 2 ==> p[0] != p[|p| - 1]
  }

  lemma PathTail(edges: Edges, p: seq<int>)
    requires IsPath(edges, p) && |p| > 1
    ensures (p[0], p[1]) in edges && IsPath(edges, p[1..])
  {
    var q := p[1..];
    forall i | 0 <= i < |q| - 1
      ensures (q[i], q[i + 1]) in edges
    {
      assert q[i] == p[i + 1];
    }
  }

  lemma ReachRefl(edges: Edges, a: int)
    ensures Reach(edges, a, a)
  {
    assert PathFromTo(edges, [a], a, a);
  }

  lemma ReachTrans(edges: Edges, a: int, b: int, c: int)
    requires Reach(edges, a, b) && Reach(edges, b, c)
    ensures Reach(edges, a, c)
  {
    var p :| PathFromTo(edges, p, a, b);
    var q :| PathFromTo(edges, q, b, c);
    var r := p + q[1..];
    forall i | 0 <= i < |r| - 1
      ensures (r[i], r[i + 1]) in edges
    {
      if i >= |p| - 1 {
        var j := i - (|p| - 1);
        assert r[i] == q[j] && r[i + 1] == q[j + 1];
      }
    }
    assert PathFromTo(edges, r, a, c);
  }

  lemma ReachEdge(edges: Edges, a: int, b: int)
    requires (a, b) in edges
    ensures Reach(edges, a, b)
  {
    assert PathFromTo(edges, [a, b], a, b);
  }

  /** The first step of a non-trivial walk. */
  lemma ReachSplit(edges: Edges, a: int, b: int) returns (m: int)
    requires Reach(edges, a, b) && a != b
    ensures (a, m) in edges && Reach(edges, m, b)
  {
    var p :| PathFromTo(edges, p, a, b);
    m := p[1];
    assert (p[0], p[1]) in edges;
    var q := p[1..];
    PathTail(edges, p);
    assert PathFromTo(edges, q, m, b);
  }

  /** A set that contains a and is closed under edges contains everything reachable from a. */
  lemma {:induction false} ClosedContainsPath(edges: Edges, closed: set<int>, p: seq<int>)
    requires IsPath(edges, p) && p[0] in closed
    requires forall e :: e in edges && e.0 in closed ==> e.1 in closed
    ensures p[|p| - 1] in closed
    decreases |p|
  {
    if |p| > 1 {
      assert (p[0], p[1]) in edges;
      var q := p[1..];
      PathTail(edges, p);
      ClosedContainsPath(edges, closed, q);
    }
  }

  lemma ClosedContainsReachable(edges: Edges, closed: set<int>, a: int, b: int)
    requires a in closed && Reach(edges, a, b)
    requires forall e :: e in edges && e.0 in closed ==> e.1 in closed
    ensures b in closed
  {
    var p :| PathFromTo(edges, p, a, b);
    ClosedContainsPath(edges, closed, p);
  }

  lemma ReachMonotone(small: Edges, large: Edges, a: int, b: int)
    requires small <= large && Reach(small, a, b)
    ensures Reach(large, a, b)
  {
    var p :| PathFromTo(small, p, a, b);
    assert PathFromTo(large, p, a, b);
  }

  lemma EdgeClosesCycle(edges: Edges, a: int, b: int)
    requires (a, b) in edges && Reach(edges, b, a)
    ensures !Acyclic(edges)
  {
    var p :| PathFromTo(edges, p, b, a);
    var q := [a] + p;
    forall i | 0 <= i < |q| - 1
      ensures (q[i], q[i + 1]) in edges
    {
      if i > 0 {
        assert (p[i - 1], p[i - 1 + 1]) in edges;
      }
    }
    assert IsPath(edges, q);
  }

  /** The cycle-free graphs are those where no edge leads back to its own source. */
  lemma AcyclicByEdges(edges: Edges)
    ensures Acyclic(edges) <==> forall e :: e in edges ==> !Reach(edges, e.1, e.0)
  {
    if Acyclic(edges) {
      forall e | e in edges
        ensures !Reach(edges, e.1, e.0)
      {
        if Reach(edges, e.1, e.0) {
          EdgeClosesCycle(edges, e.0, e.1);
        }
      }
    } else {
      var p :| IsPath(edges, p) && |p| >= 2 && p[0] == p[|p| - 1];
      var e := (p[0], p[1]);
      var q := p[1..];
      PathTail(edges, p);
      assert PathFromTo(edges, q, e.1, e.0);
      assert e in edges;
    }
  }

  lemma AcyclicSubset(small: Edges, large: Edges)
    requires small <= large && Acyclic(large)
    ensures Acyclic(small)
  {
    assert forall p :: IsPath(small, p) ==> IsPath(large, p);
  }

  /** A walk in the graph with one more edge (t, b) either avoids the edge or leads to t and on from b. */
  lemma {:induction false} WalkWithNewEdge(edges: Edges, t: int, b: int, p: seq<int>)
    requires IsPath(edges + {(t, b)}, p)
    ensures Reach(edges, p[0], p[|p| - 1])
         || (Reach(edges, p[0], t) && Reach(edges, b, p[|p| - 1]))
    decreases |p|
  {
    ReachRefl(edges, p[0]);
    if |p| > 1 {
      var q := p[1..];
      PathTail(edges + {(t, b)}, p);
      WalkWithNewEdge(edges, t, b, q);
      if (p[0], p[1]) in edges {
        ReachEdge(edges, p[0], p[1]);
        if Reach(edges, q[0], q[|q| - 1]) {
          ReachTrans(edges, p[0], p[1], q[|q| - 1]);
        } else {
          ReachTrans(edges, p[0], p[1], t);
        }
      }
    }
  }

  /** A cycle through an old edge of the graph with the new edge (t, b) uses the new edge. */
  lemma CycleUsesNewEdge(edges: Edges, t: int, b: int, e: (int, int))
    requires Acyclic(edges) && e in edges + {(t, b)}
    requires Reach(edges + {(t, b)}, e.1, e.0)
    ensures Reach(edges, b, t)
  {
    var p :| PathFromTo(edges + {(t, b)}, p, e.1, e.0);
    WalkWithNewEdge(edges, t, b, p);
    AcyclicByEdges(edges);
    if e in edges && !Reach(edges, e.1, e.0) {
      ReachEdge(edges, e.0, e.1);
      ReachTrans(edges, b, e.0, e.1);
      ReachTrans(edges, b, e.1, t);
    }
  }

  /** Adding (t, b) to an acyclic graph keeps it acyclic exactly when t is not reachable from b. */
  lemma AddEdgeAcyclic(edges: Edges, t: int, b: int)
    requires Acyclic(edges)
    ensures Acyclic(edges + {(t, b)}) <==> !Reach(edges, b, t)
  {
    var bigger := edges + {(t, b)};
    AcyclicByEdges(bigger);
    if Reach(edges, b, t) {
      ReachMonotone(edges, bigger, b, t);
      assert (t, b) in bigger;
    } else {
      forall e | e in bigger
        ensures !Reach(bigger, e.1, e.0)
      {
        if Reach(bigger, e.1, e.0) {
          CycleUsesNewEdge(edges, t, b, e);
        }
      }
    }
  }

  /** Every non-empty finite set of nodes of an acyclic graph has a node without successor in the set. */
  lemma SinkExists(edges: Edges, nodes: set<int>) returns (sink: int)
    requires Acyclic(edges) && exists n :: n in nodes
    ensures sink in nodes && forall n :: n in nodes ==> (sink, n) !in edges
    decreases nodes
  {
    var start :| start in nodes;
    var later := set n | n in nodes && n != start && Reach(edges, start, n);
    ReachRefl(edges, start);
    AcyclicByEdges(edges);
    forall m, n | (m == start || m in later) && n in nodes && (m, n) in edges
      ensures n in later
    {
      ReachEdge(edges, m, n);
      ReachTrans(edges, start, m, n);
    }
    if exists n :: n in later {
      sink := SinkExists(edges, later);
    } else {
      sink := start;
    }
  }
}
