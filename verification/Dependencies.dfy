/** The statements on ticket_dependencies. */
module DependenciesRepository {
  import opened Schema
  import opened Graph
  import opened TicketTable
  import opened DatabaseModel

  /** INSERT ... ON CONFLICT DO NOTHING: true when a new row was written. */
  method Add(db: Database, t: int, b: int) returns (added: bool)
    modifies db`deps
    ensures added == ((t, b) !in old(db.deps)) && db.deps == old(db.deps) + {(t, b)}
  {
    added := (t, b) !in db.deps;
    db.deps := db.deps + {(t, b)};
  }

  method Remove(db: Database, t: int, b: int) returns (removed: bool)
    modifies db`deps
    ensures removed == ((t, b) in old(db.deps)) && db.deps == old(db.deps) - {(t, b)}
  {
    removed := (t, b) in db.deps;
    db.deps := db.deps - {(t, b)};
  }

  /** The blocker ids of t, soft-deleted ones included, in no particular order. */
  method BlockerIdsOf(db: Database, t: int) returns (ids: seq<int>)
    ensures forall b :: b in ids ==> (t, b) in db.deps
    ensures forall e :: e in db.deps && e.0 == t ==> e.1 in ids
    ensures forall i, j :: 0 <= i < j < |ids| ==> ids[i] != ids[j]
  {
    ids := Enumerate(BlockerIds(db.deps, t));
    forall b | b in ids
      ensures (t, b) in db.deps
    {
      var e :| e in db.deps && e.0 == t && e.1 == b;
      assert e == (t, b);
    }
    forall e | e in db.deps && e.0 == t
      ensures e.1 in ids
    {
      var b := e.1;
      assert b in BlockerIds(db.deps, t);
      assert b in ids;
    }
  }

  /** COUNT(*) over the joined blockers that are active and not DONE: each counts once, and the count is 0
      exactly when every blocker of t is resolved, soft-deleted or missing. */
  method CountUnresolvedBlockers(db: Database, t: int) returns (count: nat)
    ensures count == |Unresolved(db.tickets, db.deps, t)|
    ensures count == 0 <==> forall b :: (t, b) in db.deps ==>
              b !in db.tickets || db.tickets[b].deleted || db.tickets[b].status == DONE
  {
    var ids := BlockerIdsOf(db, t);
    count := 0;
    ghost var counted: set<int> := {};
    for i := 0 to |ids|
      invariant count == |counted|
      invariant forall b :: b in counted <==> b in ids[..i] && Open(db.tickets, b)
    {
      assert ids[..i + 1] == ids[..i] + [ids[i]];
      if Open(db.tickets, ids[i]) {
        counted := counted + {ids[i]};
        count := count + 1;
      }
    }
    assert ids[..|ids|] == ids;
    SameBlockers(db.tickets, db.deps, t, ids, counted);
  }

  lemma SameBlockers(tickets: Tickets, deps: Edges, t: int, ids: seq<int>, counted: set<int>)
    requires forall b :: b in ids ==> (t, b) in deps
    requires forall e :: e in deps && e.0 == t ==> e.1 in ids
    requires forall b :: b in counted <==> b in ids && Open(tickets, b)
    ensures counted == Unresolved(tickets, deps, t)
    ensures |counted| == 0 <==> forall b :: (t, b) in deps ==> !Open(tickets, b)
  {
    forall b | b in counted
      ensures b in Unresolved(tickets, deps, t)
    {
      assert (t, b) in deps;
    }
    forall b | (t, b) in deps && Open(tickets, b)
      ensures b in counted
    {
      var e := (t, b);
      assert e.1 in ids;
    }
  }
}

/** Adding and removing dependencies, with the depth-first cycle check. */
module DependenciesService {
  import opened Schema
  import opened Graph
  import opened Operations
  import opened DatabaseModel
  import DependenciesRepository
  import TicketsRepository

  /** Everything that blocks anything. */
  ghost function Blockers(edges: Edges): set<int> {
    set e | e in edges :: e.1
  }

  /** Would "t is blocked by b" close a loop? Decides on any finite graph, cyclic or not, whether t is
      reachable from b. */
  method WouldCreateCycle(db: Database, t: int, b: int) returns (cycle: bool)
    ensures cycle <==> Reach(db.deps, b, t)
  {
    var visited: set<int> := {};
    var stack: seq<int> := [b];
    ghost var universe := Blockers(db.deps) + {b};
    ReachRefl(db.deps, b);
    while stack != []
      invariant visited <= universe && t !in visited
      invariant forall n :: n in stack ==> n in universe && Reach(db.deps, b, n)
      invariant forall n :: n in visited ==> Reach(db.deps, b, n)
      invariant b in visited || b in stack
      invariant forall e :: e in db.deps && e.0 in visited ==> e.1 in visited || e.1 in stack
      decreases universe - visited, |stack|
    {
      var current := stack[|stack| - 1];
      ghost var popped := stack;
      stack := stack[..|stack| - 1];
      assert popped == stack + [current];
      if current == t {
        return true;
      }
      if current !in visited {
        visited := visited + {current};
        var next := DependenciesRepository.BlockerIdsOf(db, current);
        ghost var below := stack;
        for i := 0 to |next|
          invariant forall n :: n in stack ==> n in universe && Reach(db.deps, b, n)
          invariant forall n :: n in below ==> n in stack
          invariant forall k :: 0 <= k < i ==> next[k] in visited || next[k] in stack
        {
          var n := next[i];
          if n !in visited {
            assert (current, n) in db.deps && n in universe;
            ReachEdge(db.deps, current, n);
            ReachTrans(db.deps, b, current, n);
            stack := stack + [n];
          }
        }
        forall e | e in db.deps && e.0 in visited
          ensures e.1 in visited || e.1 in stack
        {
          var n := e.1;
          if e.0 == current {
            assert n in next;
            var k :| 0 <= k < |next| && next[k] == n;
            assert next[k] in visited || next[k] in stack;
            assert n in visited || n in stack;
          } else if n !in visited {
            assert n in popped;
            assert n in below || n == current;
          }
        }
      }
    }
    if Reach(db.deps, b, t) {
      ClosedContainsReachable(db.deps, visited, b, t);
    }
    cycle := false;
  }

  /** Refused for a cycle exactly when the edge would close one; otherwise written once and logged. */
  method Add(db: Database, t: int, b: int, who: int) returns (r: Result<()>)
    modifies db
    ensures (db.Snapshot(), r) == AddDependency(old(db.Snapshot()), t, b, who)
    ensures Acyclic(old(db.deps)) ==> Acyclic(db.deps)
  {
    if t == b {
      return Err(BadRequest);
    }
    var ticket := TicketsRepository.FindById(db, t);
    if ticket.None? {
      return Err(NotFound);
    }
    var blocker := TicketsRepository.FindById(db, b);
    if blocker.None? {
      return Err(NotFound);
    }
    if ticket.value.project != blocker.value.project {
      return Err(BadRequest);
    }
    var cycle := WouldCreateCycle(db, t, b);
    if cycle {
      return Err(BadRequest);
    }
    if Acyclic(db.deps) {
      AddEdgeAcyclic(db.deps, t, b);
    }
    var added := DependenciesRepository.Add(db, t, b);
    if added {
      db.Log(DependencyEntry(CREATE, t, b, who));
    } else {
      assert db.deps == old(db.deps);
    }
    r := Ok(());
  }

  method Remove(db: Database, t: int, b: int, who: int) returns (r: Result<()>)
    modifies db
    ensures (db.Snapshot(), r) == RemoveDependency(old(db.Snapshot()), t, b, who)
  {
    var removed := DependenciesRepository.Remove(db, t, b);
    if !removed {
      assert db.deps == old(db.deps);
      return Err(NotFound);
    }
    db.Log(DependencyEntry(DELETE, t, b, who));
    r := Ok(());
  }

  /** Two adds that both passed their checks before either inserted leave a cycle exactly when each
      one's blocker reaches the other one's ticket: check and insert are separate statements. */
  lemma InterleavedAdds(edges: Edges, t1: int, b1: int, t2: int, b2: int)
    requires Acyclic(edges) && !Reach(edges, b1, t1) && !Reach(edges, b2, t2)
    ensures !Acyclic(edges + {(t1, b1)} + {(t2, b2)}) <==> Reach(edges, b2, t1) && Reach(edges, b1, t2)
  {
    var first := edges + {(t1, b1)};
    AddEdgeAcyclic(edges, t1, b1);
    AddEdgeAcyclic(first, t2, b2);
    if Reach(first, b2, t2) {
      var p :| PathFromTo(first, p, b2, t2);
      WalkWithNewEdge(edges, t1, b1, p);
    }
    if Reach(edges, b2, t1) && Reach(edges, b1, t2) {
      ReachMonotone(edges, first, b2, t1);
      ReachMonotone(edges, first, b1, t2);
      ReachEdge(first, t1, b1);
      ReachTrans(first, b2, t1, b1);
      ReachTrans(first, b2, b1, t2);
    }
  }
}
