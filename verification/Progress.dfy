/** No deadlock: some open ticket can always be finished, and so all of them can, one update each. */
module Progress {
  import opened Schema
  import opened Graph
  import opened TicketTable
  import opened Operations
  import opened System

  /** The PATCH { "status": "DONE", "version": v }. */
  function FinishDto(version: int): UpdateDto {
    UpdateDto(EMPTY_PATCH.(status := Some(DONE)), Some(version))
  }

  ghost function OpenTickets(s: State): set<int> {
    set id | id in s.tickets && Open(s.tickets, id)
  }

  /** An open ticket can be finished with its current version exactly when nothing unresolved blocks it. */
  lemma CanFinish(s: State, id: int, who: int)
    requires id in OpenTickets(s)
    ensures PatchTicket(s, id, FinishDto(s.tickets[id].version), who).1.Ok? <==> Unresolved(s.tickets, s.deps, id) == {}
  {
  }

  /** While any ticket is open, one of them is free of unresolved blockers. */
  lemma UnblockedTicket(s: State) returns (id: int)
    requires Acyclic(s.deps) && exists t :: t in OpenTickets(s)
    ensures id in OpenTickets(s) && Unresolved(s.tickets, s.deps, id) == {}
  {
    assert forall t, b :: b in Unresolved(s.tickets, s.deps, t) ==> b in OpenTickets(s) && (t, b) in s.deps;
    id := SinkExists(s.deps, OpenTickets(s));
  }

  /** Deadlock freedom in every reachable state. */
  lemma SomeTicketCanFinish(outages: seq<bool>, ops: seq<Op>, who: int) returns (id: int)
    requires Legal(Start(outages), ops)
    requires exists t :: t in OpenTickets(Run(Start(outages), ops))
    ensures var s := Run(Start(outages), ops);
            && id in OpenTickets(s) && Unresolved(s.tickets, s.deps, id) == {}
            && PatchTicket(s, id, FinishDto(s.tickets[id].version), who).1.Ok?
  {
    StartInv(outages);
    RunInv(Start(outages), ops);
    id := UnblockedTicket(Run(Start(outages), ops));
    CanFinish(Run(Start(outages), ops), id, who);
  }

  /** One PATCH to DONE per listed ticket, with the versions the tickets have in the given table. */
  ghost function FinishOps(tickets: Tickets, order: seq<int>, who: int): seq<Op> {
    seq(|order|, i requires 0 <= i < |order| =>
      PatchOp(order[i], FinishDto(if order[i] in tickets then tickets[order[i]].version else 1), who))
  }

  /** Each of the operations, run in order from s, is accepted. */
  ghost predicate AllAccepted(s: State, ops: seq<Op>)
    decreases |ops|
  {
    ops == [] ||
    (ops[0].PatchOp? && PatchTicket(s, ops[0].id, ops[0].patch, ops[0].who).1.Ok?
     && AllAccepted(Step(s, ops[0]), ops[1..]))
  }

  /** The sequence lists every member of the set exactly once. */
  ghost predicate Lists(order: seq<int>, members: set<int>) {
    && (forall i, j :: 0 <= i < j < |order| ==> order[i] != order[j])
    && (forall i :: 0 <= i < |order| ==> order[i] in members)
    && (forall m :: m in members ==> m in order)
  }

  ghost predicate AllDone(tickets: Tickets) {
    forall id :: Active(tickets, id) ==> tickets[id].status == DONE
  }

  lemma FinishOne(s: State, id: int, who: int)
    requires id in OpenTickets(s) && Unresolved(s.tickets, s.deps, id) == {}
    ensures var after := Step(s, PatchOp(id, FinishDto(s.tickets[id].version), who));
            && OpenTickets(after) == OpenTickets(s) - {id}
            && after.deps == s.deps && after.tickets.Keys == s.tickets.Keys
            && (forall t :: t in s.tickets && t != id ==> after.tickets[t] == s.tickets[t])
            && (forall t :: t in s.tickets ==> after.tickets[t].deleted == s.tickets[t].deleted)
  {
    CanFinish(s, id, who);
  }

  lemma FinishOpsCons(tickets: Tickets, next: Tickets, id: int, rest: seq<int>, who: int)
    requires id in tickets && id !in rest && next.Keys == tickets.Keys
    requires forall t :: t in tickets && t != id ==> next[t] == tickets[t]
    ensures FinishOps(tickets, [id] + rest, who)
         == [PatchOp(id, FinishDto(tickets[id].version), who)] + FinishOps(next, rest, who)
  {
    var order := [id] + rest;
    forall i | 0 <= i < |rest|
      ensures order[i + 1] == rest[i] && rest[i] != id
    {
      assert rest[i] in rest;
    }
  }

  lemma ListsCons(id: int, rest: seq<int>, members: set<int>)
    requires id in members && Lists(rest, members - {id})
    ensures Lists([id] + rest, members) && id !in rest
  {
    var order := [id] + rest;
    forall m | m in members
      ensures m in order
    {
      if m != id {
        assert m in rest;
        var i :| 0 <= i < |rest| && rest[i] == m;
        assert order[i + 1] == m;
      } else {
        assert order[0] == m;
      }
    }
  }

  /** A complete schedule: every open ticket once, each with its present version, every update accepted,
      and no open ticket left. */
  lemma {:induction false} FinishSchedule(s: State, who: int) returns (order: seq<int>)
    requires Acyclic(s.deps)
    ensures Lists(order, OpenTickets(s))
    ensures AllAccepted(s, FinishOps(s.tickets, order, who))
    ensures AllDone(Run(s, FinishOps(s.tickets, order, who)).tickets)
    decreases |OpenTickets(s)|
  {
    if exists t :: t in OpenTickets(s) {
      var id := UnblockedTicket(s);
      CanFinish(s, id, who);
      FinishOne(s, id, who);
      var op := PatchOp(id, FinishDto(s.tickets[id].version), who);
      var next := Step(s, op);
      var rest := FinishSchedule(next, who);
      order := [id] + rest;
      ListsCons(id, rest, OpenTickets(s));
      FinishOpsCons(s.tickets, next.tickets, id, rest, who);
      RunCons(s, op, FinishOps(next.tickets, rest, who));
      assert ([op] + FinishOps(next.tickets, rest, who))[1..] == FinishOps(next.tickets, rest, who);
    } else {
      order := [];
      assert FinishOps(s.tickets, [], who) == [];
      forall id | Active(s.tickets, id)
        ensures s.tickets[id].status == DONE
      {
        assert id !in OpenTickets(s);
      }
    }
  }

  /** From every reachable state, one update per open ticket brings all active tickets to DONE. */
  lemma EverythingCanFinish(outages: seq<bool>, ops: seq<Op>, who: int) returns (order: seq<int>)
    requires Legal(Start(outages), ops)
    ensures var s := Run(Start(outages), ops);
            var schedule := FinishOps(s.tickets, order, who);
            Lists(order, OpenTickets(s)) && AllAccepted(s, schedule) && AllDone(Run(s, schedule).tickets)
  {
    StartInv(outages);
    RunInv(Start(outages), ops);
    order := FinishSchedule(Run(Start(outages), ops), who);
  }
}
